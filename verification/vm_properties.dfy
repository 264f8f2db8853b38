/** What one instruction of the stack machine does, stated as the net effect
    of a `Step` (handler plus the program-counter increment of the dispatch
    loop), and how the calling convention keeps the static-link chain. */
module VirtualMachineProperties {
  import opened MachineInt
  import opened Wrappers
  import opened Instructions
  import opened VirtualMachine

  /** The machine is well formed and about to execute `ins`. */
  predicate Fetches(s: State, ins: Instr)
  {
    Valid(s) && s.pc < |s.program| && s.program[s.pc] == ins && s.pc + 1 <= INT32_MAX
  }

  /** `s` with the program counter moved to the next instruction. */
  function Next(s: State): State
    requires s.pc + 1 <= INT32_MAX
  {
    s.(pc := s.pc + 1)
  }

  // ---------------------------------------------------------------------
  // Push, Pop and the main frame

  /** A pop right after a push returns the pushed word and restores the
      stack pointer; the push wrote only the cell at the old stack pointer. */
  lemma PushThenPop(s: State, v: i32)
    requires Valid(s) && s.sp < |s.stack|
    ensures Push(s, v).Success?
    ensures Pop(Push(s, v).value) == Success(Popped(s.(stack := s.stack[s.sp := v]), v))
  {
  }

  /** The constructor's three pushes of 0 onto the empty stack produce the
      main frame of `Init`. */
  lemma InitIsThreePushes(program: seq<Instr>)
    ensures var empty := Init(program).(sp := 0);
      && Push(empty, 0).Success?
      && Push(Push(empty, 0).value, 0).Success?
      && Push(Push(Push(empty, 0).value, 0).value, 0) == Success(Init(program))
  {
    var empty := Init(program).(sp := 0);
    assert empty.stack[0 := 0] == empty.stack;
    assert empty.stack[1 := 0] == empty.stack;
    assert empty.stack[2 := 0] == empty.stack;
  }

  /** Returning from the main frame ends the program: its return address is
      the 0 the constructor pushed. */
  lemma MainFrameReturnHalts(program: seq<Instr>, l: i16, a: i32)
    requires |program| > 0 && program[0] == Instr(RET, l, a)
    ensures Step(Init(program)) == Halted(Init(program))
  {
  }

  /** The dispatch loop in two stretches: running `m + n` instructions is
      running `m`, then `n` more from wherever the machine is, unless it
      has already stopped. */
  lemma RunSplit(s: State, m: nat, n: nat)
    ensures Run(s, m + n) == Resume(Step, Run(s, m), n)
  {
    ResumeSplit(Step, Running(s), m, n);
  }

  /** `RunSplit` for any step function and any starting outcome. */
  lemma {:induction false} ResumeSplit(step: State -> Outcome, o: Outcome, m: nat, n: nat)
    ensures Resume(step, o, m + n) == Resume(step, Resume(step, o, m), n)
    decreases m
  {
    if m > 0 && o.Running? {
      ResumeSplit(step, step(o.state), m - 1, n);
    }
  }

  // ---------------------------------------------------------------------
  // One step per opcode
  //
  // These lemmas are the machine's opcode table, written as the net effect
  // of one `Step`. Most follow from the handlers' definitions by unfolding
  // alone; they are there to be read and to be used by the lemmas further
  // down. The calling convention below (`CallExec`, `CallThenReturn`,
  // `CalleeScopeChain`, `CalleeSeesEnclosingScope`) is where the proofs are.

  lemma StepINT(s: State, l: i16, a: i32)
    requires Fetches(s, Instr(INT, l, a))
    ensures Step(s) == Running(Next(s).(sp := ToU32(s.sp + a)))
  {
  }

  lemma StepLIT(s: State, l: i16, a: i32)
    requires Fetches(s, Instr(LIT, l, a)) && s.sp < |s.stack|
    ensures Step(s) == Running(Next(s).(stack := s.stack[s.sp := a], sp := s.sp + 1))
  {
  }

  lemma StepLOD(s: State, l: i16, a: i32, address: u32)
    requires Fetches(s, Instr(LOD, l, a)) && s.sp < |s.stack|
    requires GetVariableAddress(s, l, ToU32(a)) == Success(address) && address < |s.stack|
    ensures Step(s) == Running(Next(s).(stack := s.stack[s.sp := s.stack[address]], sp := s.sp + 1))
  {
  }

  lemma StepSTO(s: State, l: i16, a: i32, address: u32)
    requires Fetches(s, Instr(STO, l, a)) && 0 < s.sp
    requires GetVariableAddress(s, l, ToU32(a)) == Success(address) && address < |s.stack|
    ensures Step(s) == Running(Next(s).(stack := s.stack[address := s.stack[s.sp - 1]], sp := s.sp - 1))
  {
  }

  /** `JMP a` moves the program counter by `a` in all. */
  lemma StepJMP(s: State, l: i16, a: i32)
    requires Fetches(s, Instr(JMP, l, a))
    ensures Step(s) == Running(s.(pc := ToU32(s.pc + a)))
  {
    ToU32Add(s.pc + a - 1, 1);
  }

  /** `JPC a` always consumes the condition and jumps by `a` exactly when it
      is 0. */
  lemma StepJPC(s: State, l: i16, a: i32)
    requires Fetches(s, Instr(JPC, l, a)) && 0 < s.sp
    ensures Step(s).Running?
    ensures Step(s).state.sp == s.sp - 1 && Step(s).state.stack == s.stack
    ensures s.stack[s.sp - 1] == 0 ==> Step(s).state.pc == ToU32(s.pc + a)
    ensures s.stack[s.sp - 1] != 0 ==> Step(s).state.pc == s.pc + 1
  {
    ToU32Add(s.pc + a - 1, 1);
  }

  /** The value a binary OPR pushes, from its left and right operands, over
      unbounded integers; `None` for codes that are not binary. */
  function BinaryMeaning(code: i32, left: int, right: int): Option<int>
  {
    if code == OP_ADD then Some(left + right)
    else if code == OP_SUB then Some(left - right)
    else if code == OP_MUL then Some(left * right)
    else if code == OP_LT then Some(if left < right then 1 else 0)
    else if code == OP_LE then Some(if left <= right then 1 else 0)
    else if code == OP_EQ then Some(if left == right then 1 else 0)
    else if code == OP_NE then Some(if left != right then 1 else 0)
    else if code == OP_GE then Some(if left >= right then 1 else 0)
    else if code == OP_GT then Some(if left > right then 1 else 0)
    else if code == OP_DIV && right != 0 then Some(TruncDiv(left, right))
    else None
  }

  /** A binary OPR pops the right operand, then the left one, and leaves
      the result in the left operand's cell: the stack shrinks by one. */
  lemma StepBinaryOpr(s: State, l: i16, code: i32)
    requires Fetches(s, Instr(OPR, l, code)) && 2 <= s.sp
    requires BinaryMeaning(code, s.stack[s.sp - 2], s.stack[s.sp - 1]).Some?
    requires code == OP_DIV ==> !(s.stack[s.sp - 2] == INT32_MIN && s.stack[s.sp - 1] == -1)
    ensures Step(s) == Running(Next(s).(
      stack := s.stack[s.sp - 2 := ToI32(BinaryMeaning(code, s.stack[s.sp - 2], s.stack[s.sp - 1]).value)],
      sp := s.sp - 1))
  {
    var left, right := s.stack[s.sp - 2], s.stack[s.sp - 1];
    var v := ToI32(BinaryMeaning(code, left, right).value);
    var t := s.(stack := s.stack[s.sp - 2 := v], sp := s.sp - 1);
    if code == OP_ADD { BinaryEffect(s, Add, v); }
    else if code == OP_SUB { BinaryEffect(s, Sub, v); }
    else if code == OP_MUL { BinaryEffect(s, Mul, v); }
    else if code == OP_DIV { BinaryEffect(s, Divide, v); }
    else if code == OP_LT { BinaryEffect(s, Less, v); }
    else if code == OP_LE { BinaryEffect(s, LessEqual, v); }
    else if code == OP_EQ { BinaryEffect(s, Equal, v); }
    else if code == OP_NE { BinaryEffect(s, NotEqual, v); }
    else if code == OP_GE { BinaryEffect(s, GreaterEqual, v); }
    else { BinaryEffect(s, Greater, v); }
    assert ExecOPR(s, s.program[s.pc]) == Success(t);
  }

  /** A binary operation replaces the two top words by one. */
  lemma BinaryEffect(s: State, op: (i32, i32) -> Result<i32, Fault>, v: i32)
    requires Valid(s) && 2 <= s.sp
    requires op(s.stack[s.sp - 2], s.stack[s.sp - 1]) == Success(v)
    ensures Binary(s, op) == Success(s.(stack := s.stack[s.sp - 2 := v], sp := s.sp - 1))
  {
  }

  /** Division by zero stops the machine. */
  lemma StepDivideByZero(s: State, l: i16)
    requires Fetches(s, Instr(OPR, l, OP_DIV)) && 2 <= s.sp && s.stack[s.sp - 1] == 0
    ensures Step(s) == Failed(DivisionFault)
  {
  }

  /** `Neg` and `Odd` replace the top of the stack; `Odd` yields the C++
      remainder, which is -1 for a negative odd number. */
  lemma StepUnaryOpr(s: State, l: i16, code: i32)
    requires Fetches(s, Instr(OPR, l, code)) && 1 <= s.sp
    requires code == OP_NEG || code == OP_ODD
    ensures code == OP_NEG ==>
      Step(s) == Running(Next(s).(stack := s.stack[s.sp - 1 := ToI32(-(s.stack[s.sp - 1] as int))]))
    ensures code == OP_ODD ==>
      Step(s) == Running(Next(s).(stack := s.stack[s.sp - 1 := TruncRem(s.stack[s.sp - 1], 2)]))
    ensures code == OP_ODD ==>
      (Step(s).state.stack[s.sp - 1] != 0 <==> s.stack[s.sp - 1] % 2 == 1)
  {
  }

  /** An OPR code outside 0..11 stops the machine before anything is popped. */
  lemma StepUnknownOpr(s: State, l: i16, code: i32)
    requires Fetches(s, Instr(OPR, l, code)) && !(0 <= code <= 11)
    ensures Step(s) == Failed(UnknownOpr(code))
  {
  }

  /** `RET` outside the main frame: the stack pointer drops to the frame
      base, the caller's base pointer comes back from the dynamic link and
      execution resumes at the return address. */
  lemma StepRET(s: State, l: i16, a: i32)
    requires Fetches(s, Instr(RET, l, a)) && s.bp + 1 < |s.stack|
    requires ToU32(s.stack[s.bp + 1]) != 0
    ensures Step(s) == Running(s.(sp := s.bp, bp := ToU32(s.stack[s.bp]), pc := ToU32(s.stack[s.bp + 1])))
  {
    ToU32Add(ToU32(s.stack[s.bp + 1]) - 1, 1);
  }

  /** `RET` with return address 0 halts and changes nothing. */
  lemma StepRETHalts(s: State, l: i16, a: i32)
    requires Fetches(s, Instr(RET, l, a)) && s.bp + 1 < |s.stack|
    requires ToU32(s.stack[s.bp + 1]) == 0
    ensures Step(s) == Halted(s)
  {
  }

  /** `LOR` replaces the address on top of the stack by the word it names. */
  lemma StepLOR(s: State, l: i16, a: i32)
    requires Fetches(s, Instr(LOR, l, a)) && 0 < s.sp
    requires ToU32(s.stack[s.sp - 1]) < |s.stack|
    ensures Step(s) == Running(Next(s).(stack := s.stack[s.sp - 1 := s.stack[ToU32(s.stack[s.sp - 1])]]))
  {
  }

  /** `STR` pops the address, then the value, and writes only that cell. */
  lemma StepSTR(s: State, l: i16, a: i32)
    requires Fetches(s, Instr(STR, l, a)) && 2 <= s.sp
    requires ToU32(s.stack[s.sp - 1]) < |s.stack|
    ensures Step(s) == Running(Next(s).(
      stack := s.stack[ToU32(s.stack[s.sp - 1]) := s.stack[s.sp - 2]],
      sp := s.sp - 2))
  {
  }

  /** `LOA` pushes an address without reading the cell it names. */
  lemma StepLOA(s: State, l: i16, a: i32, address: u32)
    requires Fetches(s, Instr(LOA, l, a)) && s.sp < |s.stack|
    requires GetVariableAddress(s, l, ToU32(a)) == Success(address)
    ensures Step(s) == Running(Next(s).(stack := s.stack[s.sp := ToI32(address)], sp := s.sp + 1))
  {
  }

  lemma StepLBP(s: State, l: i16, a: i32)
    requires Fetches(s, Instr(LBP, l, a)) && s.sp < |s.stack|
    ensures Step(s) == Running(Next(s).(stack := s.stack[s.sp := s.bp], sp := s.sp + 1))
  {
  }

  /** `WRT` moves the top of the stack to the output. */
  lemma StepWRT(s: State, l: i16, a: i32)
    requires Fetches(s, Instr(WRT, l, a)) && 0 < s.sp
    ensures Step(s) == Running(Next(s).(sp := s.sp - 1, output := s.output + [s.stack[s.sp - 1]]))
  {
  }

  /** Opcodes without a handler, RAN_N and RAN among them, stop the machine. */
  lemma StepUnknownOpcode(s: State, ins: Instr)
    requires Fetches(s, ins) && ins.f > LOA
    ensures Step(s) == Failed(UnknownInstruction(ins.f))
    ensures ins.f == RAN_N || ins.f == RAN ==> Step(s).Failed?
  {
  }

  /** Every instruction other than the four control transfers continues
      with the next instruction. */
  lemma StepAdvances(s: State, ins: Instr)
    requires Fetches(s, ins)
    requires ins.f != CAL && ins.f != JMP && ins.f != JPC && ins.f != RET
    ensures Step(s).Running? ==> Step(s).state.pc == s.pc + 1
  {
    if ins.f == OPR {
      OprKeepsPc(s, ins);
    }
  }

  lemma OprKeepsPc(s: State, ins: Instr)
    ensures ExecOPR(s, ins).Success? ==> ExecOPR(s, ins).value.pc == s.pc
  {
  }

  // ---------------------------------------------------------------------
  // Static links

  /** Starting at frame base `x`, `k` static links can be followed and every
      frame visited (including the last) lies below `limit`. */
  predicate ChainWithin(stack: seq<i32>, x: int, k: nat, limit: int)
    decreases k
  {
    && limit <= |stack|
    && 0 <= x && x + 2 < limit
    && (k > 0 ==> ChainWithin(stack, stack[x + 2], k - 1, limit))
  }

  /** On a chain inside the stack both link walks of the implementation
      agree and end at a frame base below the limit. */
  lemma {:induction false} WalksAgree(stack: seq<i32>, x: int, k: nat, limit: int)
    requires |stack| <= StackCapacity && ChainWithin(stack, x, k, limit)
    ensures WalkU32(stack, x, k).Success? && WalkI32(stack, x, k).Success?
    ensures WalkU32(stack, x, k).value == WalkI32(stack, x, k).value
    ensures ChainWithin(stack, WalkI32(stack, x, k).value, 0, limit)
    decreases k
  {
    if k > 0 {
      WalksAgree(stack, stack[x + 2], k - 1, limit);
    }
  }

  /** Writes at or above `limit` do not change a chain below it. */
  lemma {:induction false} ChainFrame(stack: seq<i32>, stack': seq<i32>, x: int, k: nat, limit: int)
    requires |stack| <= StackCapacity && ChainWithin(stack, x, k, limit)
    requires |stack'| == |stack| && stack'[..limit] == stack[..limit]
    ensures ChainWithin(stack', x, k, limit)
    ensures WalkI32(stack', x, k) == WalkI32(stack, x, k)
    ensures WalkU32(stack', x, k) == WalkU32(stack, x, k)
    decreases k
  {
    assert stack'[x + 2] == stack'[..limit][x + 2];
    if k > 0 {
      ChainFrame(stack, stack', stack[x + 2], k - 1, limit);
    }
  }

  /** Following `a + b` links is following `a`, then `b`. */
  lemma {:induction false} ChainSplit(stack: seq<i32>, x: int, a: nat, b: nat, limit: int)
    requires |stack| <= StackCapacity && ChainWithin(stack, x, a + b, limit)
    ensures ChainWithin(stack, x, a, limit)
    ensures WalkI32(stack, x, a).Success?
    ensures ChainWithin(stack, WalkI32(stack, x, a).value, b, limit)
    ensures WalkI32(stack, x, a + b) == WalkI32(stack, WalkI32(stack, x, a).value, b)
    decreases a
  {
    if a > 0 {
      ChainSplit(stack, stack[x + 2], a - 1, b, limit);
    }
  }

  /** The preconditions of a call in a well-formed frame: the caller's
      frame header lies below the stack pointer, three more words fit, and
      the static links the call follows stay below the stack pointer. */
  predicate CanCall(s: State, l: i16, a: i32)
  {
    && Fetches(s, Instr(CAL, l, a))
    && s.bp + 3 <= s.sp && s.sp + 3 <= |s.stack|
    && ChainWithin(s.stack, s.bp, LinkHops(l), s.sp)
  }

  /** The static link a call with level difference `l` gives the callee:
      `LinkHops(l)` links up from the caller's frame. */
  function CalleeLink(s: State, l: i16): i32
    requires Valid(s) && ChainWithin(s.stack, s.bp, LinkHops(l), s.sp)
  {
    WalksAgree(s.stack, s.bp, LinkHops(l), s.sp);
    WalkI32(s.stack, s.bp, LinkHops(l)).value
  }

  /** `CAL l a` builds a three-word frame header on top of the stack
      (dynamic link = old base pointer, return address = next instruction,
      static link by the level difference), makes it the current frame and
      continues at `a`. Level difference 0 reuses the caller's static link,
      1 uses the caller's frame, -k follows k + 1 links. */
  lemma CallFrame(s: State, l: i16, a: i32)
    requires CanCall(s, l, a)
    ensures Step(s).Running?
    ensures var t := Step(s).state;
      && t == s.(
           stack := s.stack[s.sp := s.bp][s.sp + 1 := (s.pc + 1) as i32][s.sp + 2 := CalleeLink(s, l)],
           sp := s.sp + 3, bp := s.sp, pc := ToU32(a))
      && t.stack[t.bp] == s.bp && t.stack[t.bp + 1] == s.pc + 1 && t.stack[t.bp + 2] == CalleeLink(s, l)
    ensures l == 0 ==> CalleeLink(s, l) == s.stack[s.bp + 2]
    ensures l == 1 ==> CalleeLink(s, l) == s.bp
    ensures l < 0 ==> WalkI32(s.stack, s.bp, 1 - (l as int)) == Success(CalleeLink(s, l))
  {
    CallExec(s, l, a);
    ToU32Add(a - 1, 1);
    WalksAgree(s.stack, s.bp, LinkHops(l), s.sp);
  }

  /** The call handler alone, before the dispatch loop's increment. */
  lemma CallExec(s: State, l: i16, a: i32)
    requires CanCall(s, l, a)
    ensures ExecCAL(s, Instr(CAL, l, a)) == Success(s.(
      stack := s.stack[s.sp := s.bp][s.sp + 1 := (s.pc + 1) as i32][s.sp + 2 := CalleeLink(s, l)],
      sp := s.sp + 3, bp := s.sp, pc := ToU32(a - 1)))
  {
    var s1 := s.(stack := s.stack[s.sp := s.bp], sp := s.sp + 1);
    var s2 := s1.(stack := s1.stack[s1.sp := (s.pc + 1) as i32], sp := s1.sp + 1);
    assert Push(s, ToI32(s.bp)) == Success(s1);
    assert Push(s1, ToI32(ToU32(s.pc + 1))) == Success(s2);
    assert s2.stack[..s.sp] == s.stack[..s.sp];
    StaticLinkKept(s, l, s2.stack);
    var sl := CalleeLink(s, l);
    var s3 := s2.(stack := s2.stack[s2.sp := sl], sp := s2.sp + 1);
    assert Push(s2, sl) == Success(s3);
  }

  /** The callee's static link, computed on the stack after the first two
      pushes of the call, is the one the caller's chain gives. */
  lemma StaticLinkKept(s: State, l: i16, stack2: seq<i32>)
    requires Valid(s) && s.bp + 3 <= s.sp && ChainWithin(s.stack, s.bp, LinkHops(l), s.sp)
    requires |stack2| == |s.stack| && stack2[..s.sp] == s.stack[..s.sp]
    ensures CalleeStaticLink(stack2, s.bp, l) == Success(CalleeLink(s, l))
  {
    WalksAgree(s.stack, s.bp, LinkHops(l), s.sp);
    if l == 0 {
      assert stack2[s.bp + 2] == stack2[..s.sp][s.bp + 2];
    } else if l != 1 {
      ChainFrame(s.stack, stack2, s.bp, LinkHops(l), s.sp);
    }
  }

  /** A call immediately followed by a return comes back to the instruction
      after the call with the caller's base and stack pointers, and leaves
      every word below the caller's stack pointer as it was. */
  lemma CallThenReturn(s: State, l: i16, a: i32, l': i16, a': i32)
    requires CanCall(s, l, a)
    requires 0 <= a < |s.program| && a < INT32_MAX && s.program[a] == Instr(RET, l', a')
    ensures Step(s).Running?
    ensures var u := Step(Step(s).state);
      && u.Running?
      && u.state.bp == s.bp && u.state.sp == s.sp && u.state.pc == s.pc + 1
      && |u.state.stack| == |s.stack|
      && u.state.stack[..s.sp] == s.stack[..s.sp]
      && u.state.output == s.output
  {
    CallFrame(s, l, a);
    var t := Step(s).state;
    assert Fetches(t, Instr(RET, l', a'));
    assert t.stack[t.bp + 1] == s.pc + 1 && t.stack[t.bp] == s.bp;
    StepRET(t, l', a');
    assert t.stack[..s.sp] == s.stack[..s.sp];
  }

  /** The scope chain the callee sees: its j-th static link (j >= 1) is the
      frame `LinkHops(l) + j - 1` links up from the caller. So non-local
      variable addresses resolve in the callee exactly as the corresponding
      deeper addresses did in the caller. */
  lemma CalleeScopeChain(s: State, l: i16, a: i32, j: nat)
    requires CanCall(s, l, a) && 1 <= j
    requires ChainWithin(s.stack, s.bp, LinkHops(l) + j - 1, s.sp)
    ensures Step(s).Running?
    ensures WalkU32(Step(s).state.stack, Step(s).state.bp, j).Success?
    ensures WalkU32(Step(s).state.stack, Step(s).state.bp, j)
         == WalkU32(s.stack, s.bp, LinkHops(l) + j - 1)
  {
    CallFrame(s, l, a);
    var t := Step(s).state;
    assert t.stack[..s.sp] == s.stack[..s.sp];
    FrameScopeChain(s, l, t.stack, j);
  }

  /** The chain seen from a new frame header pushed at the stack pointer
      with the callee's static link: its first link leads into the caller's
      chain, `LinkHops(l)` links up. */
  lemma FrameScopeChain(s: State, l: i16, stack2: seq<i32>, j: nat)
    requires Valid(s) && s.bp + 3 <= s.sp && s.sp + 3 <= |s.stack| && 1 <= j
    requires ChainWithin(s.stack, s.bp, LinkHops(l), s.sp)
    requires ChainWithin(s.stack, s.bp, LinkHops(l) + j - 1, s.sp)
    requires |stack2| == |s.stack| && stack2[..s.sp] == s.stack[..s.sp] && stack2[s.sp + 2] == CalleeLink(s, l)
    ensures WalkU32(stack2, s.sp, j).Success?
    ensures WalkU32(stack2, s.sp, j) == WalkU32(s.stack, s.bp, LinkHops(l) + j - 1)
  {
    var h := LinkHops(l);
    ChainSplit(s.stack, s.bp, h, j - 1, s.sp);
    var sl := WalkI32(s.stack, s.bp, h).value;
    WalkFirstLink(stack2, s.sp, j, sl);
    ChainFrame(s.stack, stack2, sl, j - 1, s.sp);
    WalksAgree(s.stack, sl, j - 1, s.sp);
    WalksAgree(s.stack, s.bp, h + j - 1, s.sp);
  }

  /** The first step of a walk from a frame header whose static link is
      `sl`. */
  lemma WalkFirstLink(stack: seq<i32>, b: u32, j: nat, sl: i32)
    requires |stack| <= StackCapacity && b + 2 < |stack| && stack[b + 2] == sl && 0 <= sl && 1 <= j
    ensures WalkU32(stack, b, j) == WalkU32(stack, sl, j - 1)
  {
  }

  /** Non-local variable access in the callee, one level out: for a call
      into a child (l = 1) it reaches the caller's own frame, for a
      recursive call (l = 0) the caller's lexical parent, and for l = -k the
      frame k + 1 levels out from the caller. */
  lemma CalleeSeesEnclosingScope(s: State, l: i16, a: i32, offset: u32)
    requires CanCall(s, l, a)
    requires LinkHops(l) <= 0x8000
    ensures Step(s).Running?
    ensures GetVariableAddress(Step(s).state, -1, offset)
         == GetVariableAddress(s, -(LinkHops(l) as int) as i16, offset)
    ensures l == 1 ==> GetVariableAddress(Step(s).state, -1, offset) == GetVariableAddress(s, 0, offset)
    ensures l == 0 ==> GetVariableAddress(Step(s).state, -1, offset) == GetVariableAddress(s, -1, offset)
  {
    CalleeScopeChain(s, l, a, 1);
  }
}
