/** What the declarations build: for a `var` or `const` declaration spelt
    out over fresh names, exactly those names at consecutive frame offsets
    and exactly one instruction per name; a repeated name is rejected; and
    the main procedure's frame stays consistent. */
module CodeGeneratorProperties {
  import opened MachineInt
  import opened Wrappers
  import opened Instructions
  import opened Lexer
  import opened Symbols
  import opened CodeGenerator

  function Ident(line: nat, name: string): Token { Token(line, "ident", 0, name) }

  function Sym(line: nat, kind: string): Token { Token(line, kind, 0, "") }

  function Num(line: nat, n: i32): Token { Token(line, "number", n, "") }

  /** The tokens of `a, b, c;`. */
  function VarList(line: nat, names: seq<string>): seq<Token>
    requires |names| > 0
  {
    [Ident(line, names[0])]
    + if |names| == 1 then [Sym(line, ";")] else [Sym(line, ",")] + VarList(line, names[1..])
  }

  /** The tokens of `a = 1, b = 2;`. */
  function ConstList(line: nat, names: seq<string>, values: seq<i32>): seq<Token>
    requires |names| == |values| > 0
  {
    [Ident(line, names[0]), Sym(line, "="), Num(line, values[0])]
    + if |names| == 1 then [Sym(line, ";")] else [Sym(line, ",")] + ConstList(line, names[1..], values[1..])
  }

  /** The tokens from `pos` on begin with `seg`. */
  predicate TokensAt(ts: seq<Token>, pos: nat, seg: seq<Token>)
  {
    pos + |seg| <= |ts| && forall i :: 0 <= i < |seg| ==> ts[pos + i] == seg[i]
  }

  lemma TokensAtSuffix(ts: seq<Token>, pos: nat, a: seq<Token>, b: seq<Token>)
    requires TokensAt(ts, pos, a + b)
    ensures TokensAt(ts, pos, a) && TokensAt(ts, pos + |a|, b)
  {
    forall i | 0 <= i < |a| ensures ts[pos + i] == a[i] {
      assert (a + b)[i] == a[i];
    }
    forall i | 0 <= i < |b| ensures ts[pos + |a| + i] == b[i] {
      assert (a + b)[|a| + i] == b[i];
    }
  }

  lemma TokensAtIndex(ts: seq<Token>, pos: nat, seg: seq<Token>, i: nat)
    requires TokensAt(ts, pos, seg) && i < |seg|
    ensures ts[pos + i] == seg[i]
  {
  }

  /** The tokens from `pos + k` on begin with what `seg` has after `k`. */
  lemma TokensAtDrop(ts: seq<Token>, pos: nat, seg: seq<Token>, k: nat)
    requires TokensAt(ts, pos, seg) && k <= |seg|
    ensures TokensAt(ts, pos + k, seg[k..])
  {
    forall i | 0 <= i < |seg| - k ensures ts[pos + k + i] == seg[k..][i] {
      assert ts[pos + (k + i)] == seg[k + i];
    }
  }

  /** Where a spelt-out `var` list lies: its first name, then `;` or `,`
      and the rest of the list. */
  lemma VarListAt(ts: seq<Token>, pos: nat, line: nat, names: seq<string>)
    requires |names| > 0 && TokensAt(ts, pos, VarList(line, names))
    ensures pos + 1 < |ts| && ts[pos] == Ident(line, names[0])
    ensures |names| == 1 ==> ts[pos + 1] == Sym(line, ";")
    ensures |names| > 1 ==> ts[pos + 1] == Sym(line, ",") && TokensAt(ts, pos + 2, VarList(line, names[1..]))
  {
    var seg := VarList(line, names);
    TokensAtIndex(ts, pos, seg, 0);
    TokensAtIndex(ts, pos, seg, 1);
    if |names| > 1 {
      TokensAtDrop(ts, pos, seg, 2);
      assert seg[2..] == VarList(line, names[1..]);
    }
  }

  /** Where a spelt-out `const` list lies: its first pair, then `;` or `,`
      and the rest of the list. */
  lemma ConstListAt(ts: seq<Token>, pos: nat, line: nat, names: seq<string>, values: seq<i32>)
    requires |names| == |values| > 0 && TokensAt(ts, pos, ConstList(line, names, values))
    ensures pos + 3 < |ts|
    ensures ts[pos] == Ident(line, names[0]) && ts[pos + 1] == Sym(line, "=") && ts[pos + 2] == Num(line, values[0])
    ensures |names| == 1 ==> ts[pos + 3] == Sym(line, ";")
    ensures |names| > 1 ==>
      ts[pos + 3] == Sym(line, ",") && TokensAt(ts, pos + 4, ConstList(line, names[1..], values[1..]))
  {
    var seg := ConstList(line, names, values);
    TokensAtIndex(ts, pos, seg, 0);
    TokensAtIndex(ts, pos, seg, 1);
    TokensAtIndex(ts, pos, seg, 2);
    TokensAtIndex(ts, pos, seg, 3);
    if |names| > 1 {
      TokensAtDrop(ts, pos, seg, 4);
      assert seg[4..] == ConstList(line, names[1..], values[1..]);
    }
  }

  /** The names can all be declared in procedure `index`, one after the
      other: they are pairwise distinct, and none is a variable there
      already, a keyword, the procedure's name or a sub-procedure's name. */
  predicate FreshNames(procs: seq<Procedure>, index: nat, names: seq<string>)
    requires ChildrenInRange(procs, index)
  {
    var p := procs[index];
    && (forall a, b :: 0 <= a < b < |names| ==> names[a] != names[b])
    && forall a :: 0 <= a < |names| ==>
         && names[a] !in Keywords
         && names[a] != p.name
         && (forall i :: 0 <= i < |p.variables| ==> p.variables[i].name != names[a])
         && (forall j :: 0 <= j < |p.subProcedures| ==> procs[p.subProcedures[j]].name != names[a])
  }

  /** The variables the names become, starting after `count` earlier ones. */
  function NewVariables(count: nat, names: seq<string>): (vs: seq<Variable>)
    ensures |vs| == |names|
    decreases |names|
  {
    if |names| == 0 then []
    else [Variable(names[0], ToU32(count + 3))] + NewVariables(count + 1, names[1..])
  }

  /** One `INT 0 1` per name: a word of frame space each. */
  function Allocations(names: seq<string>): (r: seq<Instr>)
    ensures |r| == |names| && forall i :: 0 <= i < |names| ==> r[i] == Instr(INT, 0, 1)
  {
    if |names| == 0 then [] else [Instr(INT, 0, 1)] + Allocations(names[1..])
  }

  /** One `LIT 0 n` per value, in order. */
  function Literals(values: seq<i32>): (r: seq<Instr>)
    ensures |r| == |values| && forall i :: 0 <= i < |values| ==> r[i] == Instr(LIT, 0, values[i])
  {
    if |values| == 0 then [] else [Instr(LIT, 0, values[0])] + Literals(values[1..])
  }

  /** After declaring the first name the rest are still fresh. */
  lemma FreshRest(procs: seq<Procedure>, procs2: seq<Procedure>, index: nat, names: seq<string>)
    requires ChildrenInRange(procs, index) && |names| > 0 && FreshNames(procs, index, names)
    requires |procs2| == |procs|
    requires forall j :: 0 <= j < |procs| && j != index ==> procs2[j] == procs[j]
    requires procs2[index] == procs[index].(
      variables := procs[index].variables + [Variable(names[0], ToU32(|procs[index].variables| + 3))],
      instructions := procs2[index].instructions)
    ensures ChildrenInRange(procs2, index)
    ensures FreshNames(procs2, index, names[1..])
  {
    var p, q := procs[index], procs2[index];
    forall j | 0 <= j < |q.subProcedures| ensures procs2[q.subProcedures[j]].name == procs[p.subProcedures[j]].name {
      if q.subProcedures[j] == index {
        assert procs2[index].name == procs[index].name;
      }
    }
    forall a | 0 <= a < |names[1..]|
      ensures forall i :: 0 <= i < |q.variables| ==> q.variables[i].name != names[1..][a]
    {
      assert names[1..][a] == names[a + 1];
    }
  }

  /** The state after declaring `name` in procedure `index` with the
      instruction `ins`, the cursor moved to `cursor`. */
  function Declared(g: Generator, index: nat, name: string, ins: Instr, cursor: nat): Generator
    requires index < |g.procedures|
  {
    var p := g.procedures[index];
    g.(cursor := cursor,
       procedures := g.procedures[index := p.(variables := p.variables + [Variable(name, ToU32(|p.variables| + 3))],
                                              instructions := p.instructions + [ins])])
  }

  /** A fresh name is declared at the next frame offset, and nothing else
      in the registry changes. */
  lemma AddFresh(procs: seq<Procedure>, index: nat, name: string, line: nat)
    requires ChildrenInRange(procs, index) && FreshNames(procs, index, [name])
    ensures var p := procs[index];
      AddVariable(procs, index, name, line)
        == Success(procs[index := p.(variables := p.variables + [Variable(name, ToU32(|p.variables| + 3))])])
  {
    var p := procs[index];
    assert [name][0] == name;
    assert !exists i :: 0 <= i < |p.variables| && p.variables[i].name == name;
    assert !exists j :: 0 <= j < |p.subProcedures| && procs[p.subProcedures[j]].name == name;
    var r := AddVariable(procs, index, name, line);
    assert r.Success?;
    assert r.value == procs[index := p.(variables := p.variables + [Variable(name, ToU32(|p.variables| + 3))])];
  }

  /** One identifier over a fresh name is accepted. */
  lemma VarItemFresh(ts: seq<Token>, g: Generator, index: nat, line: nat, name: string)
    requires ChildrenInRange(g.procedures, index) && FreshNames(g.procedures, index, [name])
    requires g.cursor < |ts| && ts[g.cursor] == Ident(line, name)
    ensures VarItem(ts, g, index) == Success(Declared(g, index, name, Instr(INT, 0, 1), g.cursor + 1))
  {
    var id := Match(ts, g, "ident");
    assert id.Success? && id.value.got == Name(name);
    AddFresh(g.procedures, index, name, line);
    EmitDeclared(g, index, name, Instr(INT, 0, 1), g.cursor + 1);
  }

  /** One `ident = number` pair over a fresh name is accepted. */
  lemma ConstItemFresh(ts: seq<Token>, g: Generator, index: nat, line: nat, name: string, value: i32)
    requires ChildrenInRange(g.procedures, index) && FreshNames(g.procedures, index, [name])
    requires g.cursor + 2 < |ts|
    requires ts[g.cursor] == Ident(line, name) && ts[g.cursor + 1] == Sym(line, "=") && ts[g.cursor + 2] == Num(line, value)
    ensures ConstItem(ts, g, index) == Success(Declared(g, index, name, Instr(LIT, 0, value), g.cursor + 3))
  {
    var id := Match(ts, g, "ident");
    assert id.Success? && id.value.got == Name(name);
    var eq := Match(ts, id.value.next, "=");
    assert eq.Success?;
    var num := Match(ts, eq.value.next, "number");
    assert num.Success? && num.value.got == Number(value);
    AddFresh(g.procedures, index, name, line);
    EmitDeclared(g, index, name, Instr(LIT, 0, value), g.cursor + 3);
  }

  /** Declaring then emitting is the one update `Declared` describes. */
  lemma EmitDeclared(g: Generator, index: nat, name: string, ins: Instr, cursor: nat)
    requires index < |g.procedures|
    ensures var p := g.procedures[index];
      var declared := g.procedures[index := p.(variables := p.variables + [Variable(name, ToU32(|p.variables| + 3))])];
      g.(cursor := cursor, procedures := Emit(declared, index, ins)) == Declared(g, index, name, ins, cursor)
  {
    var p := g.procedures[index];
    var declared := g.procedures[index := p.(variables := p.variables + [Variable(name, ToU32(|p.variables| + 3))])];
    assert Emit(declared, index, ins) == Declared(g, index, name, ins, cursor).procedures;
  }

  /** A `var` list goes on after a comma and ends after a semicolon. */
  lemma VarItemsUnfold(ts: seq<Token>, g: Generator, index: nat, g2: Generator)
    requires ChildrenInRange(g.procedures, index)
    requires VarItem(ts, g, index) == Success(g2) && g2.cursor < |ts|
    ensures ChildrenInRange(g2.procedures, index)
    ensures ts[g2.cursor].kind == ";" ==> VarItems(ts, g, index) == Success(g2.(cursor := g2.cursor + 1))
    ensures ts[g2.cursor].kind == "," ==> VarItems(ts, g, index) == VarItems(ts, g2.(cursor := g2.cursor + 1), index)
  {
    assert NextType(ts, g2) == Success(ts[g2.cursor].kind);
    var m := Match(ts, g2, ts[g2.cursor].kind);
    assert m.Success? && m.value.next == g2.(cursor := g2.cursor + 1);
  }

  /** A `const` list goes on after a comma and ends after a semicolon. */
  lemma ConstItemsUnfold(ts: seq<Token>, g: Generator, index: nat, g2: Generator)
    requires ChildrenInRange(g.procedures, index)
    requires ConstItem(ts, g, index) == Success(g2) && g2.cursor < |ts|
    ensures ChildrenInRange(g2.procedures, index)
    ensures ts[g2.cursor].kind == ";" ==> ConstItems(ts, g, index) == Success(g2.(cursor := g2.cursor + 1))
    ensures ts[g2.cursor].kind == "," ==> ConstItems(ts, g, index) == ConstItems(ts, g2.(cursor := g2.cursor + 1), index)
  {
    assert NextType(ts, g2) == Success(ts[g2.cursor].kind);
    var m := Match(ts, g2, ts[g2.cursor].kind);
    assert m.Success? && m.value.next == g2.(cursor := g2.cursor + 1);
  }

  /** The first of fresh names is fresh on its own. */
  lemma FreshFirst(procs: seq<Procedure>, index: nat, names: seq<string>)
    requires ChildrenInRange(procs, index) && |names| > 0 && FreshNames(procs, index, names)
    ensures FreshNames(procs, index, [names[0]])
  {
  }

  /** The first name of a spelt-out `var` list is declared; the list then
      ends, or goes on with the rest of the names, still fresh. */
  lemma VarListStep(ts: seq<Token>, g: Generator, index: nat, line: nat, names: seq<string>)
    requires ChildrenInRange(g.procedures, index)
    requires |names| > 0 && TokensAt(ts, g.cursor, VarList(line, names))
    requires FreshNames(g.procedures, index, names)
    ensures var g2 := Declared(g, index, names[0], Instr(INT, 0, 1), g.cursor + 2);
      && ChildrenInRange(g2.procedures, index)
      && (|names| == 1 ==> VarItems(ts, g, index) == Success(g2))
      && (|names| > 1 ==>
            && VarItems(ts, g, index) == VarItems(ts, g2, index)
            && TokensAt(ts, g2.cursor, VarList(line, names[1..]))
            && FreshNames(g2.procedures, index, names[1..]))
  {
    VarListAt(ts, g.cursor, line, names);
    FreshFirst(g.procedures, index, names);
    VarItemFresh(ts, g, index, line, names[0]);
    var g1 := Declared(g, index, names[0], Instr(INT, 0, 1), g.cursor + 1);
    VarItemsUnfold(ts, g, index, g1);
    FreshRest(g.procedures, g1.procedures, index, names);
  }

  /** The first pair of a spelt-out `const` list is declared; the list then
      ends, or goes on with the rest of the pairs, the names still fresh. */
  lemma ConstListStep(ts: seq<Token>, g: Generator, index: nat, line: nat, names: seq<string>, values: seq<i32>)
    requires ChildrenInRange(g.procedures, index)
    requires |names| == |values| > 0 && TokensAt(ts, g.cursor, ConstList(line, names, values))
    requires FreshNames(g.procedures, index, names)
    ensures var g2 := Declared(g, index, names[0], Instr(LIT, 0, values[0]), g.cursor + 4);
      && ChildrenInRange(g2.procedures, index)
      && (|names| == 1 ==> ConstItems(ts, g, index) == Success(g2))
      && (|names| > 1 ==>
            && ConstItems(ts, g, index) == ConstItems(ts, g2, index)
            && TokensAt(ts, g2.cursor, ConstList(line, names[1..], values[1..]))
            && FreshNames(g2.procedures, index, names[1..]))
  {
    ConstListAt(ts, g.cursor, line, names, values);
    FreshFirst(g.procedures, index, names);
    ConstItemFresh(ts, g, index, line, names[0], values[0]);
    var g1 := Declared(g, index, names[0], Instr(LIT, 0, values[0]), g.cursor + 3);
    ConstItemsUnfold(ts, g, index, g1);
    FreshRest(g.procedures, g1.procedures, index, names);
  }

  /** A `var` list over fresh names declares exactly those names, at the
      next frame offsets, and emits one `INT 0 1` per name. */
  lemma {:induction false} VarItemsRendered(ts: seq<Token>, g: Generator, index: nat, line: nat, names: seq<string>)
    requires ChildrenInRange(g.procedures, index)
    requires |names| > 0 && TokensAt(ts, g.cursor, VarList(line, names))
    requires FreshNames(g.procedures, index, names)
    ensures var r := VarItems(ts, g, index);
      var p := g.procedures[index];
      && r.Success?
      && r.value.cursor == g.cursor + 2 * |names|
      && r.value.procedures[index].variables == p.variables + NewVariables(|p.variables|, names)
      && r.value.procedures[index].instructions == p.instructions + Allocations(names)
    decreases |names|
  {
    var p := g.procedures[index];
    VarListStep(ts, g, index, line, names);
    NewVariablesCons(p.variables, names);
    AllocationsCons(p.instructions, names);
    var g2 := Declared(g, index, names[0], Instr(INT, 0, 1), g.cursor + 2);
    var q := g2.procedures[index];
    assert q.variables == p.variables + [Variable(names[0], ToU32(|p.variables| + 3))];
    assert q.instructions == p.instructions + [Instr(INT, 0, 1)];
    if |names| > 1 {
      VarItemsRendered(ts, g2, index, line, names[1..]);
    }
  }

  /** A `const` list over fresh names declares exactly those names, at the
      next frame offsets, and emits `LIT 0 n` for each value in order. */
  lemma {:induction false} ConstItemsRendered(ts: seq<Token>, g: Generator, index: nat, line: nat,
                                              names: seq<string>, values: seq<i32>)
    requires ChildrenInRange(g.procedures, index)
    requires |names| == |values| > 0 && TokensAt(ts, g.cursor, ConstList(line, names, values))
    requires FreshNames(g.procedures, index, names)
    ensures var r := ConstItems(ts, g, index);
      var p := g.procedures[index];
      && r.Success?
      && r.value.cursor == g.cursor + 4 * |names|
      && r.value.procedures[index].variables == p.variables + NewVariables(|p.variables|, names)
      && r.value.procedures[index].instructions == p.instructions + Literals(values)
    decreases |names|
  {
    var p := g.procedures[index];
    ConstListStep(ts, g, index, line, names, values);
    NewVariablesCons(p.variables, names);
    LiteralsCons(p.instructions, values);
    var g2 := Declared(g, index, names[0], Instr(LIT, 0, values[0]), g.cursor + 4);
    var q := g2.procedures[index];
    assert q.variables == p.variables + [Variable(names[0], ToU32(|p.variables| + 3))];
    assert q.instructions == p.instructions + [Instr(LIT, 0, values[0])];
    if |names| > 1 {
      ConstItemsRendered(ts, g2, index, line, names[1..], values[1..]);
    }
  }

  /** Emitting one instruction, then the rest, is emitting them all. */
  lemma {:induction false} AllocationsCons(code: seq<Instr>, names: seq<string>)
    requires |names| > 0
    ensures code + Allocations(names) == (code + [Instr(INT, 0, 1)]) + Allocations(names[1..])
    ensures |names| == 1 ==> code + Allocations(names) == code + [Instr(INT, 0, 1)]
  {
    var first := Instr(INT, 0, 1);
    assert Allocations(names) == [first] + Allocations(names[1..]);
    assert code + ([first] + Allocations(names[1..])) == (code + [first]) + Allocations(names[1..]);
  }

  lemma {:induction false} LiteralsCons(code: seq<Instr>, values: seq<i32>)
    requires |values| > 0
    ensures code + Literals(values) == (code + [Instr(LIT, 0, values[0])]) + Literals(values[1..])
    ensures |values| == 1 ==> code + Literals(values) == code + [Instr(LIT, 0, values[0])]
  {
    var first := Instr(LIT, 0, values[0]);
    assert Literals(values) == [first] + Literals(values[1..]);
    assert code + ([first] + Literals(values[1..])) == (code + [first]) + Literals(values[1..]);
  }

  /** Declaring the first name, then the rest, is declaring them all. */
  lemma {:induction false} NewVariablesCons(vars: seq<Variable>, names: seq<string>)
    requires |names| > 0
    ensures vars + NewVariables(|vars|, names)
         == (vars + [Variable(names[0], ToU32(|vars| + 3))]) + NewVariables(|vars| + 1, names[1..])
    ensures |names| == 1 ==> vars + NewVariables(|vars|, names) == vars + [Variable(names[0], ToU32(|vars| + 3))]
  {
    var v := Variable(names[0], ToU32(|vars| + 3));
    var rest := NewVariables(|vars| + 1, names[1..]);
    assert NewVariables(|vars|, names) == [v] + rest;
    assert vars + ([v] + rest) == (vars + [v]) + rest;
  }

  /** `var` over fresh names, spelt out, is accepted as a whole. */
  lemma VarDeclareRendered(ts: seq<Token>, g: Generator, index: nat, line: nat, names: seq<string>)
    requires ChildrenInRange(g.procedures, index)
    requires g.cursor < |ts| && ts[g.cursor] == Sym(line, "var")
    requires |names| > 0 && TokensAt(ts, g.cursor + 1, VarList(line, names))
    requires FreshNames(g.procedures, index, names)
    ensures var r := VarDeclare(ts, g, index);
      var p := g.procedures[index];
      && r.Success?
      && r.value.cursor == g.cursor + 1 + 2 * |names|
      && r.value.procedures[index].variables == p.variables + NewVariables(|p.variables|, names)
      && r.value.procedures[index].instructions == p.instructions + Allocations(names)
  {
    DeclareUnfold(ts, g, index);
    VarItemsRendered(ts, g.(cursor := g.cursor + 1), index, line, names);
  }

  /** `const` over fresh names, spelt out, is accepted as a whole. */
  lemma ConstDeclareRendered(ts: seq<Token>, g: Generator, index: nat, line: nat, names: seq<string>, values: seq<i32>)
    requires ChildrenInRange(g.procedures, index)
    requires g.cursor < |ts| && ts[g.cursor] == Sym(line, "const")
    requires |names| == |values| > 0 && TokensAt(ts, g.cursor + 1, ConstList(line, names, values))
    requires FreshNames(g.procedures, index, names)
    ensures var r := ConstDeclare(ts, g, index);
      var p := g.procedures[index];
      && r.Success?
      && r.value.cursor == g.cursor + 1 + 4 * |names|
      && r.value.procedures[index].variables == p.variables + NewVariables(|p.variables|, names)
      && r.value.procedures[index].instructions == p.instructions + Literals(values)
  {
    DeclareUnfold(ts, g, index);
    ConstItemsRendered(ts, g.(cursor := g.cursor + 1), index, line, names, values);
  }

  /** After its keyword a declaration is its list of items. */
  lemma DeclareUnfold(ts: seq<Token>, g: Generator, index: nat)
    requires ChildrenInRange(g.procedures, index) && g.cursor < |ts|
    ensures ts[g.cursor].kind == "var" ==> VarDeclare(ts, g, index) == VarItems(ts, g.(cursor := g.cursor + 1), index)
    ensures ts[g.cursor].kind == "const" ==> ConstDeclare(ts, g, index) == ConstItems(ts, g.(cursor := g.cursor + 1), index)
  {
    var m := Match(ts, g, ts[g.cursor].kind);
    assert m.Success? && m.value.next == g.(cursor := g.cursor + 1);
  }

  /** Declaring a name that is already a variable of the procedure stops
      compilation with a duplicate-name error on the name's line. */
  lemma VarRedeclared(ts: seq<Token>, g: Generator, index: nat, k: nat)
    requires ChildrenInRange(g.procedures, index)
    requires g.cursor + 1 < |ts| && ts[g.cursor].kind == "var" && ts[g.cursor + 1].kind == "ident"
    requires k < |g.procedures[index].variables|
    requires g.procedures[index].variables[k].name == ts[g.cursor + 1].name
    ensures VarDeclare(ts, g, index) == Failure(DuplicateVariable(ts[g.cursor + 1].name, ts[g.cursor + 1].line))
  {
    DeclareUnfold(ts, g, index);
    VarItemDuplicate(ts, g.(cursor := g.cursor + 1), index, k);
  }

  /** A name used twice in one `var` list is rejected at its second use. */
  lemma VarListRepeats(ts: seq<Token>, g: Generator, index: nat, line: nat, name: string)
    requires ChildrenInRange(g.procedures, index)
    requires FreshNames(g.procedures, index, [name])
    requires g.cursor + 3 < |ts| && ts[g.cursor] == Sym(line, "var") && ts[g.cursor + 1] == Ident(line, name)
    requires ts[g.cursor + 2] == Sym(line, ",") && ts[g.cursor + 3] == Ident(line, name)
    ensures VarDeclare(ts, g, index) == Failure(DuplicateVariable(name, line))
  {
    DeclareUnfold(ts, g, index);
    VarItemsRepeat(ts, g.(cursor := g.cursor + 1), index, line, name);
  }

  /** The items `x, x` stop at the second `x`. */
  lemma VarItemsRepeat(ts: seq<Token>, g: Generator, index: nat, line: nat, name: string)
    requires ChildrenInRange(g.procedures, index)
    requires FreshNames(g.procedures, index, [name])
    requires g.cursor + 2 < |ts| && ts[g.cursor] == Ident(line, name)
    requires ts[g.cursor + 1] == Sym(line, ",") && ts[g.cursor + 2] == Ident(line, name)
    ensures VarItems(ts, g, index) == Failure(DuplicateVariable(name, line))
  {
    VarItemThenComma(ts, g, index, line, name);
    var g2 := Declared(g, index, name, Instr(INT, 0, 1), g.cursor + 2);
    var k := |g.procedures[index].variables|;
    assert g2.procedures[index].variables[k].name == name;
    assert ts[g2.cursor] == Ident(line, name);
    VarItemDuplicate(ts, g2, index, k);
  }

  /** A fresh identifier followed by a comma is declared and the list goes
      on after the comma. */
  lemma VarItemThenComma(ts: seq<Token>, g: Generator, index: nat, line: nat, name: string)
    requires ChildrenInRange(g.procedures, index) && FreshNames(g.procedures, index, [name])
    requires g.cursor + 1 < |ts| && ts[g.cursor] == Ident(line, name) && ts[g.cursor + 1] == Sym(line, ",")
    ensures ChildrenInRange(Declared(g, index, name, Instr(INT, 0, 1), g.cursor + 2).procedures, index)
    ensures VarItems(ts, g, index) == VarItems(ts, Declared(g, index, name, Instr(INT, 0, 1), g.cursor + 2), index)
  {
    VarItemFresh(ts, g, index, line, name);
    var g2 := Declared(g, index, name, Instr(INT, 0, 1), g.cursor + 1);
    assert ts[g2.cursor].kind == ",";
    VarItemsUnfold(ts, g, index, g2);
    assert g2.(cursor := g2.cursor + 1) == Declared(g, index, name, Instr(INT, 0, 1), g.cursor + 2);
  }

  /** An identifier naming a variable the procedure already has is
      rejected, and so is the list it starts. */
  lemma VarItemDuplicate(ts: seq<Token>, g: Generator, index: nat, k: nat)
    requires ChildrenInRange(g.procedures, index)
    requires g.cursor < |ts| && ts[g.cursor].kind == "ident"
    requires k < |g.procedures[index].variables| && g.procedures[index].variables[k].name == ts[g.cursor].name
    ensures VarItems(ts, g, index) == Failure(DuplicateVariable(ts[g.cursor].name, ts[g.cursor].line))
  {
    var id := Match(ts, g, "ident");
    assert id.Success? && id.value.got == Name(ts[g.cursor].name);
  }

  /** The registry at the start has the main procedure alone, its frame
      empty and consistent. */
  lemma MainOnlyConsistent()
    ensures ChildrenInRange(MainOnly, 0)
    ensures FrameConsistent(MainOnly[0]) && NamesDistinct(MainOnly, 0)
  {
  }

  /** When the program's declarations are accepted, the statement parser
      receives a main procedure whose i-th variable sits at offset i + 3,
      with one instruction per variable and distinct names. */
  lemma MainDeclarations(ts: seq<Token>)
    requires NoProcedureDeclarations(ts, 0)
    requires Declarations(ts, Generator(0, MainOnly, []), 0).Success?
    ensures var g := Declarations(ts, Generator(0, MainOnly, []), 0).value;
      && |g.procedures| == 1 && g.callSites == []
      && FrameConsistent(g.procedures[0])
      && NamesDistinct(g.procedures, 0)
      && g.procedures[0].name == "" && g.procedures[0].level == 0 && g.procedures[0].parent == None
  {
    MainOnlyConsistent();
  }

  /** The state after declaring `names` as variables of procedure `index`,
      one `INT 0 1` each, with the cursor moved to `cursor`. */
  function VarsDeclared(g: Generator, index: nat, names: seq<string>, cursor: nat): (d: Generator)
    requires index < |g.procedures|
    ensures d.cursor == cursor && d.callSites == g.callSites
  {
    var p := g.procedures[index];
    g.(cursor := cursor,
       procedures := g.procedures[index := p.(variables := p.variables + NewVariables(|p.variables|, names),
                                              instructions := p.instructions + Allocations(names))])
  }

  /** A declaration that gave procedure `index` exactly the variables and
      code of `names` left the state `VarsDeclared` describes. */
  lemma DeclaresVars(g: Generator, r: Generator, index: nat, names: seq<string>)
    requires Declares(g, r, index, INT)
    requires var p := g.procedures[index];
      && r.procedures[index].variables == p.variables + NewVariables(|p.variables|, names)
      && r.procedures[index].instructions == p.instructions + Allocations(names)
    ensures r == VarsDeclared(g, index, names, r.cursor)
  {
    var d := VarsDeclared(g, index, names, r.cursor);
    assert r.procedures[index] == d.procedures[index];
    assert r.procedures == d.procedures;
  }

  /** `var` over fresh names, spelt out, leaves exactly the state
      `VarsDeclared` describes. */
  lemma VarDeclareState(ts: seq<Token>, g: Generator, index: nat, line: nat, names: seq<string>)
    requires ChildrenInRange(g.procedures, index)
    requires g.cursor < |ts| && ts[g.cursor] == Sym(line, "var")
    requires |names| > 0 && TokensAt(ts, g.cursor + 1, VarList(line, names))
    requires FreshNames(g.procedures, index, names)
    ensures VarDeclare(ts, g, index) == Success(VarsDeclared(g, index, names, g.cursor + 1 + 2 * |names|))
  {
    VarDeclareRendered(ts, g, index, line, names);
    var r := VarDeclare(ts, g, index);
    DeclaresVars(g, r.value, index, names);
    SuccessOf(r, VarsDeclared(g, index, names, g.cursor + 1 + 2 * |names|));
  }

  lemma SuccessOf(r: Result<Generator, CompileError>, d: Generator)
    requires r.Success? && r.value == d
    ensures r == Success(d)
  {
  }

  /** The tokens of a spelt-out `var` list are identifiers, commas and a
      semicolon, none of them `procedure`. */
  lemma {:induction false} VarListKinds(ts: seq<Token>, pos: nat, line: nat, names: seq<string>)
    requires |names| > 0 && TokensAt(ts, pos, VarList(line, names))
    ensures pos + 2 * |names| <= |ts|
    ensures forall i :: pos <= i < pos + 2 * |names| ==> ts[i].kind in {"ident", ",", ";"}
    decreases |names|
  {
    VarListAt(ts, pos, line, names);
    if |names| > 1 {
      VarListKinds(ts, pos + 2, line, names[1..]);
    }
  }

  /** The declaration loop stops, unchanged, at a token that starts no
      declaration. */
  lemma DeclarationsStop(ts: seq<Token>, g: Generator, index: nat)
    requires ChildrenInRange(g.procedures, index) && NoProcedureDeclarations(ts, g.cursor)
    requires g.cursor < |ts| && ts[g.cursor].kind !in {"const", "var"}
    ensures Declarations(ts, g, index) == Success(g)
  {
    assert NextType(ts, g) == Success(ts[g.cursor].kind);
  }

  /** An accepted `var` declaration followed by a token that starts no
      declaration is the whole declaration loop. */
  lemma DeclarationsVar(ts: seq<Token>, g: Generator, index: nat, g2: Generator)
    requires ChildrenInRange(g.procedures, index) && NoProcedureDeclarations(ts, g.cursor)
    requires g.cursor < |ts| && ts[g.cursor].kind == "var" && VarDeclare(ts, g, index) == Success(g2)
    requires g2.cursor < |ts| && ts[g2.cursor].kind !in {"const", "var"}
    ensures Declarations(ts, g, index) == Success(g2)
  {
    assert NextType(ts, g) == Success("var");
    DeclaresChanges(g, g2, index, INT);
    ChangesKeep(ts, g, g2, index);
    DeclarationsStop(ts, g2, index);
  }

  /** An accepted `var` declaration followed by a token that starts no
      declaration hands its state to the statement parser. */
  lemma VarBodyOf(ts: seq<Token>, g: Generator, index: nat, statement: StatementParser, names: seq<string>, cursor: nat)
    requires ChildrenInRange(g.procedures, index) && NoProcedureDeclarations(ts, g.cursor)
    requires g.cursor < |ts| && ts[g.cursor].kind == "var"
    requires VarDeclare(ts, g, index) == Success(VarsDeclared(g, index, names, cursor))
    requires cursor < |ts| && ts[cursor].kind !in {"const", "var"}
    ensures ProcedureBody(ts, g, index, statement) == statement(ts, VarsDeclared(g, index, names, cursor), index)
  {
    DeclarationsVar(ts, g, index, VarsDeclared(g, index, names, cursor));
  }

  /** A procedure made of `var a, b, …;` over fresh names and a statement:
      the statement parser receives the state with exactly those variables
      and their `INT 0 1`s, its cursor on the token after the `;`, and its
      result is the procedure's. */
  lemma VarBody(ts: seq<Token>, g: Generator, index: nat, line: nat, names: seq<string>, statement: StatementParser)
    requires ChildrenInRange(g.procedures, index) && NoProcedureDeclarations(ts, g.cursor)
    requires g.cursor < |ts| && ts[g.cursor] == Sym(line, "var")
    requires |names| > 0 && TokensAt(ts, g.cursor + 1, VarList(line, names))
    requires FreshNames(g.procedures, index, names)
    requires g.cursor + 1 + 2 * |names| < |ts| && ts[g.cursor + 1 + 2 * |names|].kind !in {"const", "var"}
    ensures ProcedureBody(ts, g, index, statement)
         == statement(ts, VarsDeclared(g, index, names, g.cursor + 1 + 2 * |names|), index)
  {
    VarDeclareState(ts, g, index, line, names);
    VarBodyOf(ts, g, index, statement, names, g.cursor + 1 + 2 * |names|);
  }

  /** A statement parser that consumes nothing, as for PL/0's empty
      statement. */
  function EmptyStatement(ts: seq<Token>, g: Generator, index: nat): Result<Generator, CompileError>
  {
    Success(g)
  }

  /** Names the main program can declare: pairwise distinct, no keyword
      and not the main procedure's empty name. */
  predicate MainNames(names: seq<string>)
  {
    && (forall a, b :: 0 <= a < b < |names| ==> names[a] != names[b])
    && (forall a :: 0 <= a < |names| ==> names[a] !in Keywords && names[a] != "")
  }

  lemma MainFresh(names: seq<string>)
    requires MainNames(names)
    ensures ChildrenInRange(MainOnly, 0) && FreshNames(MainOnly, 0, names)
  {
    MainOnlyConsistent();
  }

  /** The tokens of `var a, b, …; .` hold no `procedure`. */
  lemma VarProgramKinds(ts: seq<Token>, line: nat, names: seq<string>)
    requires |names| > 0 && |ts| == 2 * |names| + 2
    requires ts[0] == Sym(line, "var") && TokensAt(ts, 1, VarList(line, names)) && ts[|ts| - 1].kind == "."
    ensures NoProcedureDeclarations(ts, 0)
  {
    VarListKinds(ts, 1, line, names);
  }

  /** A main body followed by `.` is the whole program. */
  lemma ProgramOfBody(ts: seq<Token>, statement: StatementParser, g: Generator, b: Generator, r: Generator)
    requires NoProcedureDeclarations(ts, 0) && g == Generator(0, MainOnly, [])
    requires ProcedureBody(ts, g, 0, statement) == Success(b)
    requires b.cursor < |ts| && ts[b.cursor].kind == "." && r == b.(cursor := b.cursor + 1)
    ensures Program(ts, statement) == Success(r)
  {
  }

  /** Declaring variables in the fresh main procedure gives the registry
      holding main alone with exactly those variables and their code. */
  lemma MainVarsDeclared(g: Generator, names: seq<string>, cursor: nat)
    requires g == Generator(0, MainOnly, [])
    ensures VarsDeclared(g, 0, names, cursor).(cursor := cursor + 1)
         == Generator(cursor + 1, [MainOnly[0].(variables := NewVariables(0, names), instructions := Allocations(names))], [])
  {
    var p := MainOnly[0];
    assert p.variables + NewVariables(0, names) == NewVariables(0, names);
    assert p.instructions + Allocations(names) == Allocations(names);
  }

  /** The main procedure `var a, b, …;` with an empty statement leaves
      exactly those variables declared, with the cursor on the last token. */
  lemma MainVarBody(ts: seq<Token>, line: nat, names: seq<string>, g: Generator)
    requires |names| > 0 && MainNames(names)
    requires |ts| == 2 * |names| + 2
    requires ts[0] == Sym(line, "var") && TokensAt(ts, 1, VarList(line, names)) && ts[|ts| - 1].kind == "."
    requires g == Generator(0, MainOnly, [])
    ensures NoProcedureDeclarations(ts, 0)
    ensures ProcedureBody(ts, g, 0, EmptyStatement) == Success(VarsDeclared(g, 0, names, |ts| - 1))
  {
    MainVarReady(ts, line, names, g);
    VarBody(ts, g, 0, line, names, EmptyStatement);
    var d := VarsDeclared(g, 0, names, |ts| - 1);
    assert g.cursor + 1 + 2 * |names| == |ts| - 1;
    assert EmptyStatement(ts, d, 0) == Success(d);
  }

  /** The program `var a, b, …; .` meets what `VarBody` asks of the main
      procedure. */
  lemma MainVarReady(ts: seq<Token>, line: nat, names: seq<string>, g: Generator)
    requires |names| > 0 && MainNames(names)
    requires |ts| == 2 * |names| + 2
    requires ts[0] == Sym(line, "var") && TokensAt(ts, 1, VarList(line, names)) && ts[|ts| - 1].kind == "."
    requires g == Generator(0, MainOnly, [])
    ensures ChildrenInRange(g.procedures, 0) && NoProcedureDeclarations(ts, g.cursor)
    ensures g.cursor < |ts| && ts[g.cursor] == Sym(line, "var") && TokensAt(ts, g.cursor + 1, VarList(line, names))
    ensures FreshNames(g.procedures, 0, names)
    ensures g.cursor + 1 + 2 * |names| < |ts| && ts[g.cursor + 1 + 2 * |names|].kind !in {"const", "var"}
  {
    VarProgramKinds(ts, line, names);
    MainFresh(names);
  }

  /** That body followed by the final `.` is the whole program. */
  lemma ProgramOfVarBody(ts: seq<Token>, names: seq<string>, g: Generator)
    requires NoProcedureDeclarations(ts, 0) && |ts| > 0 && ts[|ts| - 1].kind == "."
    requires g == Generator(0, MainOnly, [])
    requires ProcedureBody(ts, g, 0, EmptyStatement) == Success(VarsDeclared(g, 0, names, |ts| - 1))
    ensures Program(ts, EmptyStatement)
         == Success(Generator(|ts|, [MainOnly[0].(variables := NewVariables(0, names), instructions := Allocations(names))], []))
  {
    var d := VarsDeclared(g, 0, names, |ts| - 1);
    MainVarsDeclared(g, names, |ts| - 1);
    assert d.cursor == |ts| - 1;
    assert ts[d.cursor].kind == ".";
    ProgramOfBody(ts, EmptyStatement, g, d,
      Generator(|ts|, [MainOnly[0].(variables := NewVariables(0, names), instructions := Allocations(names))], []));
  }

  /** The whole program `var a, b, …; .` with an empty statement: it is
      accepted with every token consumed, one procedure (main) holding
      exactly those variables at offsets 3, 4, … and one `INT 0 1` each,
      and no call to patch. */
  lemma VarProgram(ts: seq<Token>, line: nat, names: seq<string>)
    requires |names| > 0 && MainNames(names)
    requires |ts| == 2 * |names| + 2
    requires ts[0] == Sym(line, "var") && TokensAt(ts, 1, VarList(line, names)) && ts[|ts| - 1].kind == "."
    ensures NoProcedureDeclarations(ts, 0)
    ensures Program(ts, EmptyStatement)
         == Success(Generator(|ts|, [MainOnly[0].(variables := NewVariables(0, names), instructions := Allocations(names))], []))
  {
    var g := Generator(0, MainOnly, []);
    MainVarBody(ts, line, names, g);
    ProgramOfVarBody(ts, names, g);
  }
}
