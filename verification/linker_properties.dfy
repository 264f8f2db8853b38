/** The layout is contiguous and in registry order, and backpatching changes
    exactly the instructions that calls name. */
module LinkerProperties {
  import opened MachineInt
  import opened Wrappers
  import opened Instructions
  import opened Symbols
  import opened Linker

  /** Each procedure starts where the previous one ends. */
  lemma {:induction false} StartOfNext(procs: seq<Procedure>, i: nat)
    requires i < |procs|
    ensures StartOf(procs, i + 1) == StartOf(procs, i) + |procs[i].instructions|
    ensures StartOf(procs, 0) == 0
  {
    assert procs[..i + 1][..i] == procs[..i];
    assert procs[..0] == [];
  }

  /** Start positions never decrease along the registry and stay within the
      program. */
  lemma {:induction false} StartOfMonotone(procs: seq<Procedure>, i: nat, j: nat)
    requires i <= j <= |procs|
    ensures StartOf(procs, i) <= StartOf(procs, j) <= |Flatten(procs)|
    decreases j - i
  {
    if i < j {
      StartOfNext(procs, j - 1);
      StartOfMonotone(procs, i, j - 1);
    }
    FlattenPrefix(procs, j);
  }

  /** The program of the first procedures is a prefix of the whole one. */
  lemma {:induction false} FlattenPrefix(procs: seq<Procedure>, i: nat)
    requires i <= |procs|
    ensures Flatten(procs[..i]) <= Flatten(procs)
    decreases |procs| - i
  {
    if i < |procs| {
      FlattenPrefix(procs, i + 1);
      assert procs[..i + 1][..i] == procs[..i];
    } else {
      assert procs[..i] == procs;
    }
  }

  /** The `off`-th instruction of procedure `p` is found at its start plus
      `off` in the flat program: the layout is contiguous and in order. */
  lemma FlattenIndex(procs: seq<Procedure>, p: nat, off: nat)
    requires p < |procs| && off < |procs[p].instructions|
    ensures StartOf(procs, p) + off < |Flatten(procs)|
    ensures Flatten(procs)[StartOf(procs, p) + off] == procs[p].instructions[off]
  {
    var prefix := Flatten(procs[..p + 1]);
    assert procs[..p + 1][..p] == procs[..p];
    assert prefix == Flatten(procs[..p]) + procs[p].instructions;
    FlattenPrefix(procs, p + 1);
  }

  /** `PatchWrites` for a call whose target is known to be `at`. */
  lemma PatchWritesAt(placed: seq<Procedure>, program: seq<Instr>, calls: seq<CallSite>, k: nat, at: nat)
    requires forall i :: 0 <= i < |calls| ==> SiteInRange(placed, |program|, calls[i])
    requires k < |calls| && LastWrite(placed, |program|, calls, k)
    requires Target(placed, calls[k]) == at
    ensures at < |program| && PatchAll(placed, program, calls)[at] == CallInstr(placed, calls[k])
  {
    PatchWrites(placed, program, calls, k);
  }

  /** An instruction no call names is left as it was. */
  lemma {:induction false} PatchKeeps(placed: seq<Procedure>, program: seq<Instr>, calls: seq<CallSite>, j: nat)
    requires j < |program| && Untouched(placed, |program|, calls, j)
    ensures PatchAll(placed, program, calls)[j] == program[j]
  {
    if |calls| > 0 {
      PatchKeeps(placed, program, calls[..|calls| - 1], j);
    }
  }

  /** The instruction named by call `k`, and by no later call, ends up as
      that call's `CAL`: the last write to a position wins. */
  lemma {:induction false} PatchWrites(placed: seq<Procedure>, program: seq<Instr>, calls: seq<CallSite>, k: nat)
    requires forall i :: 0 <= i < |calls| ==> SiteInRange(placed, |program|, calls[i])
    requires k < |calls| && LastWrite(placed, |program|, calls, k)
    ensures PatchAll(placed, program, calls)[Target(placed, calls[k])] == CallInstr(placed, calls[k])
  {
    if k < |calls| - 1 {
      PatchWrites(placed, program, calls[..|calls| - 1], k);
    }
  }

  /** While the program has fewer than 2^31 instructions the `uint32_t`
      addresses and the `int32_t` operand of `CAL` are exact: a call at a
      real offset of its procedure is patched at that instruction's place
      in the program, with the callee's start as its target. */
  lemma ExactLink(procs: seq<Procedure>, c: CallSite)
    requires |Flatten(procs)| <= INT32_MAX
    requires c.procedure < |procs| && c.callee < |procs|
    requires c.offset < |procs[c.procedure].instructions|
    ensures SiteInRange(LinkAddresses(procs), |Flatten(procs)|, c)
    ensures Target(LinkAddresses(procs), c) == StartOf(procs, c.procedure) + c.offset
    ensures CallInstr(LinkAddresses(procs), c).f == CAL
    ensures CallInstr(LinkAddresses(procs), c).l == c.levelDiff
    ensures CallInstr(LinkAddresses(procs), c).a == StartOf(procs, c.callee)
  {
    var placed := LinkAddresses(procs);
    var from := StartOf(procs, c.procedure);
    var to := StartOf(procs, c.callee);
    FlattenIndex(procs, c.procedure, c.offset);
    ExactAddress(procs, c.procedure);
    ExactAddress(procs, c.callee);
    assert placed[c.procedure].address == from && placed[c.callee].address == to;
    assert from + c.offset < |Flatten(procs)| <= INT32_MAX;
    assert Target(placed, c) == from + c.offset;
    assert CallInstr(placed, c) == Instr(CAL, c.levelDiff, to);
  }

  /** Below 2^31 instructions a procedure's `uint32_t` address is exactly
      its start. */
  lemma ExactAddress(procs: seq<Procedure>, i: nat)
    requires |Flatten(procs)| <= INT32_MAX && i < |procs|
    ensures LinkAddresses(procs)[i].address == StartOf(procs, i) <= INT32_MAX
  {
    StartOfMonotone(procs, i, |procs|);
    LinkAddressesAt(procs, i);
  }

  /** Linking a registry whose calls each name a real instruction always
      succeeds, into a program as long as all procedures together; the
      `CAL` of every call that is the last to write its position lands at
      that instruction's place and targets the callee's start. */
  method LinkExact(procs: seq<Procedure>, calls: seq<CallSite>) returns (r: Result<Linked, LinkError>)
    requires |Flatten(procs)| <= INT32_MAX
    requires forall k :: 0 <= k < |calls| ==>
      calls[k].procedure < |procs| && calls[k].callee < |procs|
      && calls[k].offset < |procs[calls[k].procedure].instructions|
    ensures r.Success? && |r.value.program| == |Flatten(procs)|
    ensures forall k :: 0 <= k < |calls| && LastWrite(LinkAddresses(procs), |Flatten(procs)|, calls, k) ==>
      && StartOf(procs, calls[k].procedure) + calls[k].offset < |r.value.program|
      && r.value.program[StartOf(procs, calls[k].procedure) + calls[k].offset]
           == CallInstr(LinkAddresses(procs), calls[k])
      && CallInstr(LinkAddresses(procs), calls[k]).a == StartOf(procs, calls[k].callee)
  {
    var placed := LinkAddresses(procs);
    var n := |Flatten(procs)|;
    forall k | 0 <= k < |calls|
      ensures SiteInRange(placed, n, calls[k])
    {
      ExactLink(procs, calls[k]);
    }
    r := Link(procs, calls);
    assert r.Success? && r.value.program == PatchAll(placed, Flatten(procs), calls);
    forall k | 0 <= k < |calls| && LastWrite(placed, n, calls, k)
      ensures StartOf(procs, calls[k].procedure) + calls[k].offset < |r.value.program|
      ensures r.value.program[StartOf(procs, calls[k].procedure) + calls[k].offset]
           == CallInstr(placed, calls[k])
      ensures CallInstr(placed, calls[k]).a == StartOf(procs, calls[k].callee)
    {
      ExactPatched(procs, calls, k);
    }
  }

  /** One call of `LinkExact`: its `CAL` is at its instruction's place in
      the patched program and targets the callee's start. */
  lemma ExactPatched(procs: seq<Procedure>, calls: seq<CallSite>, k: nat)
    requires |Flatten(procs)| <= INT32_MAX
    requires forall i :: 0 <= i < |calls| ==> SiteInRange(LinkAddresses(procs), |Flatten(procs)|, calls[i])
    requires k < |calls| && LastWrite(LinkAddresses(procs), |Flatten(procs)|, calls, k)
    requires calls[k].offset < |procs[calls[k].procedure].instructions|
    ensures StartOf(procs, calls[k].procedure) + calls[k].offset < |Flatten(procs)|
    ensures PatchAll(LinkAddresses(procs), Flatten(procs), calls)[StartOf(procs, calls[k].procedure) + calls[k].offset]
         == CallInstr(LinkAddresses(procs), calls[k])
    ensures CallInstr(LinkAddresses(procs), calls[k]).a == StartOf(procs, calls[k].callee)
  {
    var c := calls[k];
    ExactLink(procs, c);
    var at := StartOf(procs, c.procedure) + c.offset;
    var patched := PatchAll(LinkAddresses(procs), Flatten(procs), calls);
    PatchWritesAt(LinkAddresses(procs), Flatten(procs), calls, k, at);
    assert patched[at] == CallInstr(LinkAddresses(procs), c);
  }

  /** An instruction of a procedure that no call names is copied unchanged
      into the linked program at its place. */
  lemma LinkKeeps(procs: seq<Procedure>, calls: seq<CallSite>, p: nat, off: nat)
    requires p < |procs| && off < |procs[p].instructions|
    requires Untouched(LinkAddresses(procs), |Flatten(procs)|, calls, StartOf(procs, p) + off)
    ensures StartOf(procs, p) + off < |Flatten(procs)|
    ensures PatchAll(LinkAddresses(procs), Flatten(procs), calls)[StartOf(procs, p) + off]
         == procs[p].instructions[off]
  {
    FlattenIndex(procs, p, off);
    PatchKeeps(LinkAddresses(procs), Flatten(procs), calls, StartOf(procs, p) + off);
  }
}
