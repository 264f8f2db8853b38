/** The parser front end: a cursor over the token sequence, the symbol
    table of each procedure with its declaration checks and frame offsets,
    the code for `const` and `var` declarations, the declaration loop of a
    procedure, and `GenerateCode`, which parses the program, rejects tokens
    after the final period and links. Statements are parsed by a function
    handed in by the caller. */
module CodeGenerator {
  import opened MachineInt
  import opened Wrappers
  import opened Instructions
  import opened Lexer
  import opened Symbols
  import opened Linker

  /** The diagnostics after which the compiler exits. */
  datatype CompileError =
    | UnexpectedEnd(lastLine: Option<nat>)  // None: no token at all to take a line from
    | Expected(expected: string, got: string, line: nat)
    | DuplicateVariable(name: string, line: nat)
    | DeclaredAsSubProcedure(name: string, line: nat)
    | DeclaredAsKeyword(name: string, line: nat)
    | DeclaredAsProcedure(name: string, line: nat)
    | RedundantCharacters(line: nat)
    | BadCall(index: nat)                  // a recorded call writes outside the program

  /** The parser's mutable state: the cursor into the tokens, the procedure
      registry and the calls waiting to be patched. */
  datatype Generator = Generator(cursor: nat, procedures: seq<Procedure>, callSites: seq<CallSite>)

  /** How the tokens from the cursor on are parsed into statements. */
  type StatementParser = (seq<Token>, Generator, nat) -> Result<Generator, CompileError>

  // ---------------------------------------------------------------------
  // The token cursor

  /** `GetNextTerminatorType`: the type of the token under the cursor. */
  function NextType(ts: seq<Token>, g: Generator): (r: Result<string, CompileError>)
    ensures r.Success? <==> g.cursor < |ts|
    ensures r.Success? ==> r.value == ts[g.cursor].kind
    ensures r.Failure? && |ts| > 0 ==> r.error == UnexpectedEnd(Some(ts[|ts| - 1].line))
    ensures r.Failure? && |ts| == 0 ==> r.error == UnexpectedEnd(None)
  {
    if g.cursor >= |ts| then
      Failure(UnexpectedEnd(if |ts| == 0 then None else Some(ts[|ts| - 1].line)))
    else Success(ts[g.cursor].kind)
  }

  /** What `Match` hands back for a number or an identifier. */
  datatype TokenValue = NoValue | Number(n: i32) | Name(name: string)

  datatype Matched = Matched(next: Generator, got: TokenValue)

  /** `Match`: the token under the cursor must have type `kind`; it is
      consumed and its value returned. */
  function Match(ts: seq<Token>, g: Generator, kind: string): (r: Result<Matched, CompileError>)
    ensures r.Success? <==> g.cursor < |ts| && ts[g.cursor].kind == kind
    ensures r.Success? ==> r.value.next == g.(cursor := g.cursor + 1)
    ensures r.Success? && kind == "number" ==> r.value.got == Number(ToI32(ts[g.cursor].number))
    ensures r.Success? && kind == "ident" ==> r.value.got == Name(ts[g.cursor].name)
    ensures r.Success? && kind != "number" && kind != "ident" ==> r.value.got == NoValue
    ensures g.cursor < |ts| && ts[g.cursor].kind != kind ==>
      r == Failure(Expected(kind, ts[g.cursor].kind, ts[g.cursor].line))
    ensures g.cursor >= |ts| ==> r.Failure? && r.error.UnexpectedEnd?
  {
    var next :- NextType(ts, g);
    if next != kind then Failure(Expected(kind, ts[g.cursor].kind, ts[g.cursor].line))
    else
      var t := ts[g.cursor];
      var got := if kind == "number" then Number(ToI32(t.number))
                 else if kind == "ident" then Name(t.name)
                 else NoValue;
      Success(Matched(g.(cursor := g.cursor + 1), got))
  }

  // ---------------------------------------------------------------------
  // Symbol tables

  /** The sub-procedures of procedure `index` are registered procedures. */
  predicate ChildrenInRange(procs: seq<Procedure>, index: nat)
  {
    index < |procs| && forall j :: 0 <= j < |procs[index].subProcedures| ==> procs[index].subProcedures[j] < |procs|
  }

  /** The first loop of `AddVariable`: whether a variable is called `name`. */
  function HasVariable(vars: seq<Variable>, name: string): (r: bool)
    ensures r <==> exists i :: 0 <= i < |vars| && vars[i].name == name
  {
    if |vars| == 0 then false
    else vars[0].name == name || HasVariable(vars[1..], name)
  }

  /** The second loop: whether one of the listed sub-procedures is called
      `name`. */
  function HasSubProcedure(procs: seq<Procedure>, subs: seq<nat>, name: string): (r: bool)
    requires forall j :: 0 <= j < |subs| ==> subs[j] < |procs|
    ensures r <==> exists j :: 0 <= j < |subs| && procs[subs[j]].name == name
  {
    if |subs| == 0 then false
    else procs[subs[0]].name == name || HasSubProcedure(procs, subs[1..], name)
  }

  /** `AddVariable`: declares `name` (spelt on line `line`) in procedure
      `index`, at the next frame offset, unless it is already a variable of
      that procedure, the name of one of its sub-procedures, a keyword, or
      the procedure's own name, checked in that order. */
  function AddVariable(procs: seq<Procedure>, index: nat, name: string, line: nat): (r: Result<seq<Procedure>, CompileError>)
    requires ChildrenInRange(procs, index)
    ensures var p := procs[index];
      var duplicate := exists i :: 0 <= i < |p.variables| && p.variables[i].name == name;
      var subProcedure := exists j :: 0 <= j < |p.subProcedures| && procs[p.subProcedures[j]].name == name;
      && (duplicate ==> r == Failure(DuplicateVariable(name, line)))
      && (!duplicate && subProcedure ==> r == Failure(DeclaredAsSubProcedure(name, line)))
      && (!duplicate && !subProcedure && name in Keywords ==> r == Failure(DeclaredAsKeyword(name, line)))
      && (!duplicate && !subProcedure && name !in Keywords && name == p.name ==>
            r == Failure(DeclaredAsProcedure(name, line)))
      && (r.Success? <==> !duplicate && !subProcedure && name !in Keywords && name != p.name)
    ensures r.Success? ==>
      && |r.value| == |procs|
      && (forall j :: 0 <= j < |procs| && j != index ==> r.value[j] == procs[j])
      && r.value[index].variables
           == procs[index].variables + [Variable(name, ToU32(|procs[index].variables| + 3))]
      && r.value[index] == procs[index].(variables := r.value[index].variables)
  {
    var p := procs[index];
    if HasVariable(p.variables, name) then Failure(DuplicateVariable(name, line))
    else if HasSubProcedure(procs, p.subProcedures, name) then Failure(DeclaredAsSubProcedure(name, line))
    else if name in Keywords then Failure(DeclaredAsKeyword(name, line))
    else if p.name == name then Failure(DeclaredAsProcedure(name, line))
    else Success(procs[index := p.(variables := p.variables + [Variable(name, ToU32(|p.variables| + 3))])])
  }

  /** Appends one instruction to procedure `index`. */
  function Emit(procs: seq<Procedure>, index: nat, ins: Instr): (r: seq<Procedure>)
    requires index < |procs|
    ensures |r| == |procs|
    ensures forall j :: 0 <= j < |procs| && j != index ==> r[j] == procs[j]
    ensures r[index] == procs[index].(instructions := procs[index].instructions + [ins])
  {
    procs[index := procs[index].(instructions := procs[index].instructions + [ins])]
  }

  // ---------------------------------------------------------------------
  // Declarations

  /** What a declaration may do to the state: only procedure `index`
      changes, and only by gaining as many instructions as variables, the
      new variables at offsets continuing the frame, each new instruction
      having opcode `op` and level 0. */
  predicate Declares(g: Generator, g2: Generator, index: nat, op: u16)
  {
    && index < |g.procedures|
    && |g2.procedures| == |g.procedures|
    && (forall j :: 0 <= j < |g.procedures| && j != index ==> g2.procedures[j] == g.procedures[j])
    && g2.callSites == g.callSites
    && var p, q := g.procedures[index], g2.procedures[index];
       && q == p.(variables := q.variables, instructions := q.instructions)
       && p.variables <= q.variables
       && p.instructions <= q.instructions
       && |q.variables| - |p.variables| == |q.instructions| - |p.instructions|
       && (forall i :: |p.variables| <= i < |q.variables| ==> q.variables[i].offset == ToU32(i + 3))
       && (forall i :: |p.instructions| <= i < |q.instructions| ==> q.instructions[i].f == op && q.instructions[i].l == 0)
  }

  /** The names in procedure `index` are pairwise distinct and clash with
      no keyword, no sub-procedure name and not the procedure's own name. */
  predicate NamesDistinct(procs: seq<Procedure>, index: nat)
    requires ChildrenInRange(procs, index)
  {
    var p := procs[index];
    && (forall i, k :: 0 <= i < k < |p.variables| ==> p.variables[i].name != p.variables[k].name)
    && (forall i :: 0 <= i < |p.variables| ==>
          && p.variables[i].name !in Keywords
          && p.variables[i].name != p.name
          && forall j :: 0 <= j < |p.subProcedures| ==> procs[p.subProcedures[j]].name != p.variables[i].name)
  }

  /** One `ident = number` pair of a `const` declaration: the name is
      declared and `LIT 0 n` emitted. */
  function ConstItem(ts: seq<Token>, g: Generator, index: nat): (r: Result<Generator, CompileError>)
    requires ChildrenInRange(g.procedures, index)
    ensures r.Success? ==> r.value.cursor == g.cursor + 3 <= |ts|
    ensures r.Success? ==> Declares(g, r.value, index, LIT)
    ensures r.Success? ==>
      var p, q := g.procedures[index], r.value.procedures[index];
      && q.variables == p.variables + [Variable(ts[g.cursor].name, ToU32(|p.variables| + 3))]
      && q.instructions == p.instructions + [Instr(LIT, 0, ToI32(ts[g.cursor + 2].number))]
    ensures r.Success? && NamesDistinct(g.procedures, index) ==> NamesDistinct(r.value.procedures, index)
  {
    var id :- Match(ts, g, "ident");
    var eq :- Match(ts, id.next, "=");
    var num :- Match(ts, eq.next, "number");
    assert num.next.cursor == g.cursor + 3 && num.next.procedures == g.procedures;
    assert id.got == Name(ts[g.cursor].name) && num.got == Number(ToI32(ts[g.cursor + 2].number));
    var declared :- AddVariable(num.next.procedures, index, id.got.name, ts[g.cursor].line);
    NamesKept(num.next.procedures, declared, index, id.got.name, ts[g.cursor].line);
    var g2 := num.next.(procedures := Emit(declared, index, Instr(LIT, 0, num.got.n)));
    EmitDeclares(g, declared, index, id.got.name, Instr(LIT, 0, num.got.n), g2);
    Success(g2)
  }

  /** The items of a `const` declaration after the keyword: pairs
      separated by `,` and ended by `;`. */
  function ConstItems(ts: seq<Token>, g: Generator, index: nat): (r: Result<Generator, CompileError>)
    requires ChildrenInRange(g.procedures, index)
    ensures r.Success? ==> g.cursor + 4 <= r.value.cursor <= |ts|
    ensures r.Success? ==> Declares(g, r.value, index, LIT)
    ensures r.Success? ==> |r.value.procedures[index].variables| > |g.procedures[index].variables|
    ensures r.Success? && NamesDistinct(g.procedures, index) ==> NamesDistinct(r.value.procedures, index)
    decreases |ts| - g.cursor
  {
    var g2 :- ConstItem(ts, g, index);
    var next :- NextType(ts, g2);
    if next == ";" then
      var done := Match(ts, g2, ";");
      Success(done.value.next)
    else
      var comma :- Match(ts, g2, ",");
      var rest :- ConstItems(ts, comma.next, index);
      DeclaresTrans(g, g2, rest, index, LIT);
      Success(rest)
  }

  /** `ConstDeclare`. */
  function ConstDeclare(ts: seq<Token>, g: Generator, index: nat): (r: Result<Generator, CompileError>)
    requires ChildrenInRange(g.procedures, index)
    ensures r.Success? ==> g.cursor < |ts| && ts[g.cursor].kind == "const"
    ensures r.Success? ==> g.cursor + 5 <= r.value.cursor <= |ts|
    ensures r.Success? ==> Declares(g, r.value, index, LIT)
    ensures r.Success? && NamesDistinct(g.procedures, index) ==> NamesDistinct(r.value.procedures, index)
  {
    var kw :- Match(ts, g, "const");
    ConstItems(ts, kw.next, index)
  }

  /** One identifier of a `var` declaration: the name is declared and
      `INT 0 1` emitted, one word of frame space. */
  function VarItem(ts: seq<Token>, g: Generator, index: nat): (r: Result<Generator, CompileError>)
    requires ChildrenInRange(g.procedures, index)
    ensures r.Success? ==> r.value.cursor == g.cursor + 1 <= |ts|
    ensures r.Success? ==> Declares(g, r.value, index, INT)
    ensures r.Success? ==>
      var p, q := g.procedures[index], r.value.procedures[index];
      && q.variables == p.variables + [Variable(ts[g.cursor].name, ToU32(|p.variables| + 3))]
      && q.instructions == p.instructions + [Instr(INT, 0, 1)]
    ensures r.Success? && NamesDistinct(g.procedures, index) ==> NamesDistinct(r.value.procedures, index)
  {
    var id :- Match(ts, g, "ident");
    var declared :- AddVariable(id.next.procedures, index, id.got.name, ts[g.cursor].line);
    NamesKept(id.next.procedures, declared, index, id.got.name, ts[g.cursor].line);
    var g2 := id.next.(procedures := Emit(declared, index, Instr(INT, 0, 1)));
    EmitDeclares(g, declared, index, id.got.name, Instr(INT, 0, 1), g2);
    Success(g2)
  }

  /** The items of a `var` declaration after the keyword: identifiers
      separated by `,` and ended by `;`. */
  function VarItems(ts: seq<Token>, g: Generator, index: nat): (r: Result<Generator, CompileError>)
    requires ChildrenInRange(g.procedures, index)
    ensures r.Success? ==> g.cursor + 2 <= r.value.cursor <= |ts|
    ensures r.Success? ==> Declares(g, r.value, index, INT)
    ensures r.Success? ==> |r.value.procedures[index].variables| > |g.procedures[index].variables|
    ensures r.Success? && NamesDistinct(g.procedures, index) ==> NamesDistinct(r.value.procedures, index)
    decreases |ts| - g.cursor
  {
    var g2 :- VarItem(ts, g, index);
    var next :- NextType(ts, g2);
    if next == ";" then
      var done := Match(ts, g2, ";");
      Success(done.value.next)
    else
      var comma :- Match(ts, g2, ",");
      var rest :- VarItems(ts, comma.next, index);
      DeclaresTrans(g, g2, rest, index, INT);
      Success(rest)
  }

  /** `VarDeclare`. */
  function VarDeclare(ts: seq<Token>, g: Generator, index: nat): (r: Result<Generator, CompileError>)
    requires ChildrenInRange(g.procedures, index)
    ensures r.Success? ==> g.cursor < |ts| && ts[g.cursor].kind == "var"
    ensures r.Success? ==> g.cursor + 3 <= r.value.cursor <= |ts|
    ensures r.Success? ==> Declares(g, r.value, index, INT)
    ensures r.Success? && NamesDistinct(g.procedures, index) ==> NamesDistinct(r.value.procedures, index)
  {
    var kw :- Match(ts, g, "var");
    VarItems(ts, kw.next, index)
  }

  /** A declaration followed by another is a declaration. */
  lemma DeclaresTrans(g1: Generator, g2: Generator, g3: Generator, index: nat, op: u16)
    requires Declares(g1, g2, index, op) && Declares(g2, g3, index, op)
    ensures Declares(g1, g3, index, op)
  {
    var p1, p2, p3 := g1.procedures[index], g2.procedures[index], g3.procedures[index];
    assert p1.variables <= p3.variables;
    assert p1.instructions <= p3.instructions;
  }

  /** Declaring a fresh name keeps the names of the procedure distinct. */
  lemma NamesKept(procs: seq<Procedure>, declared: seq<Procedure>, index: nat, name: string, line: nat)
    requires ChildrenInRange(procs, index)
    requires AddVariable(procs, index, name, line) == Success(declared)
    ensures ChildrenInRange(declared, index)
    ensures NamesDistinct(procs, index) ==> NamesDistinct(declared, index)
  {
  }

  /** A declared name followed by its one instruction is a declaration. */
  lemma EmitDeclares(g: Generator, declared: seq<Procedure>, index: nat, name: string, ins: Instr, g2: Generator)
    requires index < |g.procedures| && ins.l == 0
    requires |declared| == |g.procedures|
    requires forall j :: 0 <= j < |g.procedures| && j != index ==> declared[j] == g.procedures[j]
    requires var p := g.procedures[index];
      declared[index] == p.(variables := p.variables + [Variable(name, ToU32(|p.variables| + 3))])
    requires g2.procedures == Emit(declared, index, ins) && g2.callSites == g.callSites
    ensures Declares(g, g2, index, ins.f)
    ensures var p := g.procedures[index];
      g2.procedures[index].instructions == p.instructions + [ins]
  {
  }

  // ---------------------------------------------------------------------
  // Procedures and the program

  /** No `procedure` token lies at or after `from`: sub-procedure
      declarations are not part of the compiler (their parser consumes no
      token), so they are excluded. */
  predicate NoProcedureDeclarations(ts: seq<Token>, from: nat)
  {
    forall i :: from <= i < |ts| ==> ts[i].kind != "procedure"
  }

  /** The loop of `Procedure` up to its statement: `const` and `var`
      declarations in any order and number, ending at the first token that
      starts neither. */
  function Declarations(ts: seq<Token>, g: Generator, index: nat): (r: Result<Generator, CompileError>)
    requires ChildrenInRange(g.procedures, index)
    requires NoProcedureDeclarations(ts, g.cursor)
    ensures r.Success? ==> g.cursor <= r.value.cursor < |ts|
    ensures r.Success? ==> ts[r.value.cursor].kind !in {"const", "var", "procedure"}
    ensures r.Success? ==> ChildrenInRange(r.value.procedures, index)
    ensures r.Success? ==> Changes(g, r.value, index)
    ensures r.Success? && FrameConsistent(g.procedures[index]) ==> FrameConsistent(r.value.procedures[index])
    ensures r.Success? && NamesDistinct(g.procedures, index) ==> NamesDistinct(r.value.procedures, index)
    ensures r.Failure? && g.cursor >= |ts| ==> r.error.UnexpectedEnd?
    decreases |ts| - g.cursor
  {
    var next :- NextType(ts, g);
    if next == "const" then
      var g2 :- ConstDeclare(ts, g, index);
      DeclaresChanges(g, g2, index, LIT);
      ChangesKeep(ts, g, g2, index);
      var r :- Declarations(ts, g2, index);
      ChangesTrans(g, g2, r, index);
      Success(r)
    else if next == "var" then
      var g2 :- VarDeclare(ts, g, index);
      DeclaresChanges(g, g2, index, INT);
      ChangesKeep(ts, g, g2, index);
      var r :- Declarations(ts, g2, index);
      ChangesTrans(g, g2, r, index);
      Success(r)
    else
      assert ts[g.cursor].kind == next != "procedure";
      Success(g)
  }

  /** What the declaration loop may do to the state: only procedure
      `index` changes, and only by gaining variables and instructions in
      equal number with the new variables at offsets continuing the
      frame. */
  predicate Changes(g: Generator, g2: Generator, index: nat)
  {
    && index < |g.procedures|
    && |g2.procedures| == |g.procedures|
    && (forall j :: 0 <= j < |g.procedures| && j != index ==> g2.procedures[j] == g.procedures[j])
    && g2.callSites == g.callSites
    && var p, q := g.procedures[index], g2.procedures[index];
       && q == p.(variables := q.variables, instructions := q.instructions)
       && p.variables <= q.variables
       && p.instructions <= q.instructions
       && |q.variables| - |p.variables| == |q.instructions| - |p.instructions|
       && (forall i :: |p.variables| <= i < |q.variables| ==> q.variables[i].offset == ToU32(i + 3))
  }

  lemma DeclaresChanges(g: Generator, g2: Generator, index: nat, op: u16)
    requires Declares(g, g2, index, op)
    ensures Changes(g, g2, index)
    ensures FrameConsistent(g.procedures[index]) ==> FrameConsistent(g2.procedures[index])
  {
  }

  /** After a declaration the loop may go on: the sub-procedures are still
      registered and no `procedure` token lies ahead. */
  lemma ChangesKeep(ts: seq<Token>, g: Generator, g2: Generator, index: nat)
    requires ChildrenInRange(g.procedures, index) && NoProcedureDeclarations(ts, g.cursor)
    requires Changes(g, g2, index) && g.cursor <= g2.cursor
    ensures ChildrenInRange(g2.procedures, index) && NoProcedureDeclarations(ts, g2.cursor)
  {
    assert g2.procedures[index].subProcedures == g.procedures[index].subProcedures;
  }

  lemma ChangesTrans(g1: Generator, g2: Generator, g3: Generator, index: nat)
    requires Changes(g1, g2, index) && Changes(g2, g3, index)
    ensures Changes(g1, g3, index)
  {
    var p1, p2, p3 := g1.procedures[index], g2.procedures[index], g3.procedures[index];
    assert p1.variables <= p3.variables;
    assert p1.instructions <= p3.instructions;
  }

  /** `Procedure`: the declarations, then one statement. A failing
      declaration stops the procedure with its error; otherwise the
      statement parser receives the state the declarations leave, whose
      cursor is on the first token that starts no declaration and whose
      only change is the current procedure's new names and their code. */
  function ProcedureBody(ts: seq<Token>, g: Generator, index: nat, statement: StatementParser): (r: Result<Generator, CompileError>)
    requires ChildrenInRange(g.procedures, index)
    requires NoProcedureDeclarations(ts, g.cursor)
    ensures Declarations(ts, g, index).Failure? ==> r == Failure(Declarations(ts, g, index).error)
    ensures Declarations(ts, g, index).Success? ==>
      var d := Declarations(ts, g, index).value;
      && g.cursor <= d.cursor < |ts|
      && ts[d.cursor].kind !in {"const", "var", "procedure"}
      && ChildrenInRange(d.procedures, index)
      && Changes(g, d, index)
      && (FrameConsistent(g.procedures[index]) ==> FrameConsistent(d.procedures[index]))
      && (NamesDistinct(g.procedures, index) ==> NamesDistinct(d.procedures, index))
      && r == statement(ts, d, index)
  {
    var declared :- Declarations(ts, g, index);
    statement(ts, declared, index)
  }

  /** The registry at the start: the main program alone, with no parent,
      level 0 and the empty name. */
  const MainOnly: seq<Procedure> := [NewProcedure(None, 0, "")]

  /** `Program`: the main procedure, then the final period. The program is
      accepted exactly when the main procedure is and a `.` follows it; the
      period then only moves the cursor, and otherwise the error is the
      main procedure's, the mismatch against `.`, or the end of the input. */
  function Program(ts: seq<Token>, statement: StatementParser): (r: Result<Generator, CompileError>)
    requires NoProcedureDeclarations(ts, 0)
    ensures var body := ProcedureBody(ts, Generator(0, MainOnly, []), 0, statement);
      && (body.Failure? ==> r == Failure(body.error))
      && (body.Success? ==>
            var b := body.value;
            && (r.Success? <==> b.cursor < |ts| && ts[b.cursor].kind == ".")
            && (r.Success? ==> r.value == b.(cursor := b.cursor + 1))
            && (b.cursor < |ts| && ts[b.cursor].kind != "." ==>
                  r == Failure(Expected(".", ts[b.cursor].kind, ts[b.cursor].line)))
            && (b.cursor >= |ts| ==> r.Failure? && r.error.UnexpectedEnd?))
  {
    var body :- ProcedureBody(ts, Generator(0, MainOnly, []), 0, statement);
    var period :- Match(ts, body, ".");
    Success(period.next)
  }

  /** `GenerateCode`: parse the program, reject anything after its final
      period, then lay out and backpatch. */
  method GenerateCode(ts: seq<Token>, statement: StatementParser) returns (r: Result<Linked, CompileError>)
    requires NoProcedureDeclarations(ts, 0)
    ensures Program(ts, statement).Failure? ==> r == Failure(Program(ts, statement).error)
    ensures Program(ts, statement).Success? && Program(ts, statement).value.cursor < |ts| ==>
      r == Failure(RedundantCharacters(ts[Program(ts, statement).value.cursor].line))
    ensures r.Success? ==> Program(ts, statement).Success? && Program(ts, statement).value.cursor == |ts|
    ensures Program(ts, statement).Success? && Program(ts, statement).value.cursor == |ts| ==>
      var g := Program(ts, statement).value;
      var placed := LinkAddresses(g.procedures);
      && (r.Success? <==> forall k :: 0 <= k < |g.callSites| ==> SiteInRange(placed, |Flatten(g.procedures)|, g.callSites[k]))
      && (r.Success? ==> r.value.procedures == placed)
      && (r.Success? ==> r.value.program == PatchAll(placed, Flatten(g.procedures), g.callSites))
      && (r.Failure? ==>
            && r.error.BadCall? && r.error.index < |g.callSites|
            && !SiteInRange(placed, |Flatten(g.procedures)|, g.callSites[r.error.index]))
  {
    var parsed := Program(ts, statement);
    if parsed.Failure? {
      return Failure(parsed.error);
    }
    var g := parsed.value;
    if g.cursor != |ts| {
      return Failure(RedundantCharacters(ts[g.cursor].line));
    }
    var linked := Link(g.procedures, g.callSites);
    if linked.Failure? {
      return Failure(BadCall(linked.error.index));
    }
    assert linked.value.procedures == LinkAddresses(g.procedures) by {
      forall i | 0 <= i < |g.procedures| ensures linked.value.procedures[i] == LinkAddresses(g.procedures)[i] {
        LinkAddressesAt(g.procedures, i);
      }
    }
    return Success(linked.value);
  }
}
