/** The link half of `GenerateCode`: the procedures' instruction lists are
    laid out one after the other in registry order, each procedure's entry
    address is recorded, and every recorded call is patched into a `CAL` to
    its callee's address. */
module Linker {
  import opened MachineInt
  import opened Wrappers
  import opened Instructions
  import opened Symbols

  /** The instruction lists of `procs` concatenated in registry order. */
  function Flatten(procs: seq<Procedure>): seq<Instr>
  {
    if |procs| == 0 then [] else Flatten(procs[..|procs| - 1]) + procs[|procs| - 1].instructions
  }

  /** Where procedure `i` starts in the flat program: the total length of
      the procedures before it. */
  function StartOf(procs: seq<Procedure>, i: nat): nat
    requires i <= |procs|
  {
    |Flatten(procs[..i])|
  }

  /** The position the source computes for a call, in `uint32_t`. */
  function Target(placed: seq<Procedure>, c: CallSite): u32
    requires c.procedure < |placed|
  {
    ToU32(c.offset + placed[c.procedure].address)
  }

  /** The instruction written at a call: `CAL` with the recorded level
      difference and the callee's address converted to `int32_t`. */
  function CallInstr(placed: seq<Procedure>, c: CallSite): Instr
    requires c.callee < |placed|
  {
    Instr(CAL, c.levelDiff, ToI32(placed[c.callee].address))
  }

  /** Whether the write for `c` lands inside a program of `n` instructions;
      the source does not check, and a write outside is undefined. */
  predicate SiteInRange(placed: seq<Procedure>, n: nat, c: CallSite)
  {
    c.procedure < |placed| && c.callee < |placed| && Target(placed, c) < n
  }

  /** The program after the writes of `calls`, in order. */
  function PatchAll(placed: seq<Procedure>, program: seq<Instr>, calls: seq<CallSite>): (r: seq<Instr>)
    requires forall k :: 0 <= k < |calls| ==> SiteInRange(placed, |program|, calls[k])
    ensures |r| == |program|
  {
    if |calls| == 0 then program
    else
      var last := calls[|calls| - 1];
      assert SiteInRange(placed, |program|, last);
      PatchAll(placed, program, calls[..|calls| - 1])[Target(placed, last) := CallInstr(placed, last)]
  }

  /** Call `k` is in range and no later call writes the same position, so
      its `CAL` is the one that stays. */
  predicate LastWrite(placed: seq<Procedure>, n: nat, calls: seq<CallSite>, k: nat)
    requires k < |calls|
  {
    && SiteInRange(placed, n, calls[k])
    && forall i :: k < i < |calls| ==>
         SiteInRange(placed, n, calls[i]) && Target(placed, calls[i]) != Target(placed, calls[k])
  }

  /** No call writes position `j`. */
  predicate Untouched(placed: seq<Procedure>, n: nat, calls: seq<CallSite>, j: nat)
  {
    forall k :: 0 <= k < |calls| ==> SiteInRange(placed, n, calls[k]) && Target(placed, calls[k]) != j
  }

  datatype LinkError = BadCallSite(index: nat)

  /** The first loop of `GenerateCode`: each procedure gets the current
      program length as its address and its instructions are appended. */
  method Layout(procs: seq<Procedure>) returns (placed: seq<Procedure>, program: seq<Instr>)
    ensures program == Flatten(procs)
    ensures |placed| == |procs|
    ensures forall i :: 0 <= i < |procs| ==>
      placed[i] == procs[i].(address := ToU32(StartOf(procs, i)))
  {
    placed := [];
    program := [];
    var i := 0;
    while i < |procs|
      invariant 0 <= i <= |procs|
      invariant program == Flatten(procs[..i])
      invariant |placed| == i
      invariant forall j :: 0 <= j < i ==> placed[j] == procs[j].(address := ToU32(StartOf(procs, j)))
    {
      placed := placed + [procs[i].(address := ToU32(|program|))];
      assert procs[..i + 1][..i] == procs[..i];
      program := program + procs[i].instructions;
      i := i + 1;
    }
    assert procs[..i] == procs;
  }

  /** The second loop of `GenerateCode`: every call writes its `CAL` into
      the program; a call whose write would fall outside it stops the link
      at the first such call. */
  method Backpatch(placed: seq<Procedure>, program: seq<Instr>, calls: seq<CallSite>)
    returns (r: Result<seq<Instr>, LinkError>)
    ensures r.Success? <==> forall k :: 0 <= k < |calls| ==> SiteInRange(placed, |program|, calls[k])
    ensures r.Success? ==> r.value == PatchAll(placed, program, calls)
    ensures r.Failure? ==>
      var k := r.error.index;
      && k < |calls| && !SiteInRange(placed, |program|, calls[k])
      && forall j :: 0 <= j < k ==> SiteInRange(placed, |program|, calls[j])
  {
    var patched := program;
    var k := 0;
    while k < |calls|
      invariant 0 <= k <= |calls|
      invariant forall j :: 0 <= j < k ==> SiteInRange(placed, |program|, calls[j])
      invariant patched == PatchAll(placed, program, calls[..k])
    {
      var c := calls[k];
      if !SiteInRange(placed, |program|, c) {
        return Failure(BadCallSite(k));
      }
      assert calls[..k + 1][..k] == calls[..k];
      patched := patched[Target(placed, c) := CallInstr(placed, c)];
      k := k + 1;
    }
    assert calls[..k] == calls;
    return Success(patched);
  }

  /** The laid-out registry and the final program. */
  datatype Linked = Linked(procedures: seq<Procedure>, program: seq<Instr>)

  /** Layout followed by backpatching. */
  method Link(procs: seq<Procedure>, calls: seq<CallSite>) returns (r: Result<Linked, LinkError>)
    ensures r.Success? ==> |r.value.procedures| == |procs|
    ensures r.Success? ==> forall i :: 0 <= i < |procs| ==>
      r.value.procedures[i] == procs[i].(address := ToU32(StartOf(procs, i)))
    ensures r.Success? <==> forall k :: 0 <= k < |calls| ==>
      SiteInRange(LinkAddresses(procs), |Flatten(procs)|, calls[k])
    ensures r.Success? ==> r.value.program == PatchAll(LinkAddresses(procs), Flatten(procs), calls)
    ensures r.Failure? ==>
      var k := r.error.index;
      && k < |calls| && !SiteInRange(LinkAddresses(procs), |Flatten(procs)|, calls[k])
      && forall j :: 0 <= j < k ==> SiteInRange(LinkAddresses(procs), |Flatten(procs)|, calls[j])
  {
    var placed, program := Layout(procs);
    forall i | 0 <= i < |procs| ensures placed[i] == LinkAddresses(procs)[i] {
      LinkAddressesAt(procs, i);
    }
    assert placed == LinkAddresses(procs);
    var patched := Backpatch(placed, program, calls);
    if patched.Failure? {
      return Failure(patched.error);
    }
    return Success(Linked(placed, patched.value));
  }

  /** The registry with every address filled in as the layout does: each
      procedure's address is the length of the program before it. */
  function LinkAddresses(procs: seq<Procedure>): (placed: seq<Procedure>)
    ensures |placed| == |procs|
  {
    if |procs| == 0 then []
    else
      var init := procs[..|procs| - 1];
      LinkAddresses(init) + [procs[|procs| - 1].(address := ToU32(|Flatten(init)|))]
  }

  lemma {:induction false} LinkAddressesAt(procs: seq<Procedure>, i: nat)
    requires i < |procs|
    ensures LinkAddresses(procs)[i] == procs[i].(address := ToU32(StartOf(procs, i)))
  {
    var init := procs[..|procs| - 1];
    if i < |procs| - 1 {
      LinkAddressesAt(init, i);
      assert init[..i] == procs[..i];
    } else {
      assert init == procs[..i];
    }
  }
}
