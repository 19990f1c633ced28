/**
 * The effects of codegen in kaleidoscope/toy.cpp (lines 690-1055) on the
 * compiler's tables, as functions of a state value.  LLVM values become
 * symbolic values, allocas become numbered slots, and the instruction stream
 * is reduced to the log of stores; basic blocks and the IR text are not
 * modelled.  A null Value* is None.
 */
module Generation {
  import opened Wrappers
  import opened Ast
  import opened Operators
  import opened Naming

  /** An alloca: slots are numbered in allocation order. */
  type Slot = nat

  /** The value an expression's code computes, symbolically. */
  datatype Val =
    | Num(lexeme: string)
    | Zero
    | One
    | Load(from: Option<Slot>)
    | Op(op: char, l: Val, r: Val)
    | CallV(callee: string, args: seq<Val>)
    | Phi(c: Val, a: Val, b: Val)
    | Param(index: nat)

  /** A store instruction: `val` written to `slot`, or a null Value* written to it. */
  datatype Store = Store(slot: Slot, val: Val) | NullStore(slot: Slot)

  /** A function of the current module: its argument names, and whether it has a body yet. */
  datatype FnDecl = FnDecl(params: seq<string>, hasBody: bool)

  /**
   * NamedValues (operator[] leaves null entries, so a name may map to None),
   * the functions of TheModule, FunctionProtos, the next free slot, and the
   * stores emitted so far.
   */
  datatype CgState = CgState(
    named: map<string, Option<Slot>>,
    functions: map<string, FnDecl>,
    protos: map<string, Prototype>,
    next: Slot,
    stores: seq<Store>)

  /** A codegen result (None for a null pointer) and the state after it. */
  datatype GR<T> = GR(res: Option<T>, st: CgState)

  /** The slot a name is bound to: an absent entry and a null entry both mean none. */
  function Bound(named: map<string, Option<Slot>>, x: string): (b: Option<Slot>)
    ensures x !in named ==> b.None?
    ensures x in named ==> b == named[x]
  {
    if x in named then named[x] else None
  }

  /** NamedValues[x] as operator[] reads it: an absent name is first inserted with a null entry. */
  function Lookup(named: map<string, Option<Slot>>, x: string): (r: (Option<Slot>, map<string, Option<Slot>>))
    ensures r.0 == Bound(named, x)
    ensures x in r.1 && r.1.Keys == named.Keys + {x}
    ensures forall y :: Bound(r.1, y) == Bound(named, y)
  {
    if x in named then (named[x], named) else (None, named[x := None])
  }

  /** Allocate a fresh slot and store `v` into it (CreateEntryBlockAlloca, then CreateStore). */
  function Alloc(st: CgState, v: Val): (r: (Slot, CgState))
    ensures r.0 == st.next && r.1.next == st.next + 1
    ensures r.1.stores == st.stores + [Store(r.0, v)]
    ensures r.1.named == st.named && r.1.functions == st.functions && r.1.protos == st.protos
  {
    (st.next, st.(next := st.next + 1, stores := st.stores + [Store(st.next, v)]))
  }

  /**
   * getFunction (lines 701-712): the module's own function first; failing
   * that, a declaration made from a registered prototype, its arguments named
   * as PrototypeAST::codegen names them; failing that, null.
   */
  function GetFn(name: string, st: CgState): (r: GR<FnDecl>)
    ensures name in st.functions ==> r == GR(Some(st.functions[name]), st)
    ensures name !in st.functions && name in st.protos ==>
      && r.res == Some(FnDecl(ArgNames(st.protos[name].args), false))
      && r.st == st.(functions := st.functions[name := FnDecl(ArgNames(st.protos[name].args), false)])
    ensures name !in st.functions && name !in st.protos ==> r == GR(None, st)
  {
    if name in st.functions then GR(Some(st.functions[name]), st)
    else if name in st.protos then
      var d := FnDecl(ArgNames(st.protos[name].args), false);
      GR(Some(d), st.(functions := st.functions[name := d]))
    else GR(None, st)
  }

  /** The binary operators with an instruction of their own; the others call "binary"+op. */
  predicate IsBuiltinOp(op: char) {
    op == '+' || op == '-' || op == '*' || op == '<'
  }

  /** ExprAST::codegen, dispatching on the node kind. */
  function Gen(e: Expr, st: CgState): GR<Val>
    decreases e, 2, 0
  {
    match e
    case Number(lexeme) => GR(Some(Num(lexeme)), st)
    case Variable(x) => GenVariable(x, st)
    case Unary(_, _) => GenUnary(e, st)
    case Binary(_, _, _) => GenBinary(e, st)
    case If(_, _, _) => GenIf(e, st)
    case For(_, _, _, _, _) => GenFor(e, st)
    case Var(_, _) => GenVar(e, st)
    case Call(_, _) => GenCall(e, st)
  }

  /**
   * VariableExprAST::codegen (lines 718-726): an unknown name is reported, but
   * the load is emitted all the same, from the null entry operator[] inserted.
   */
  function GenVariable(x: string, st: CgState): (r: GR<Val>)
    ensures r.res == Some(Load(Bound(st.named, x)))
    ensures x in r.st.named && forall y :: Bound(r.st.named, y) == Bound(st.named, y)
    ensures r.st.functions == st.functions && r.st.protos == st.protos
    ensures r.st.next == st.next && r.st.stores == st.stores
  {
    var (v, named) := Lookup(st.named, x);
    GR(Some(Load(v)), st.(named := named))
  }

  /** UnaryExprAST::codegen (lines 827-837): the operand, then a call of "unary"+opcode. */
  function GenUnary(e: Expr, st: CgState): (r: GR<Val>)
    requires e.Unary?
    ensures r.res.Some? ==>
      && r.res.value.CallV? && r.res.value.callee == "unary" + [e.opcode] && |r.res.value.args| == 1
      && "unary" + [e.opcode] in r.st.functions
    decreases e, 1, 0
  {
    var o := Gen(e.operand, st);
    if o.res.None? then GR(None, o.st)
    else
      var f := GetFn("unary" + [e.opcode], o.st);
      if f.res.None? then GR(None, f.st)
      else GR(Some(CallV("unary" + [e.opcode], [o.res.value])), f.st)
  }

  /**
   * BinaryExprAST::codegen (lines 728-777).  For '=' the right side is
   * generated and a non-null result returns null at once; only after a failed
   * right side is the target looked up, and a bound target gets the null
   * value stored into it, so the assignment never yields a value.  A target
   * that is no variable is a static_cast to the wrong type,
   * modelled as a failure.  Other operators generate both sides before
   * checking either; an operator without an instruction of its own calls
   * "binary"+op, and a missing function (an assertion in the source) is a
   * failure.
   */
  function GenBinary(e: Expr, st: CgState): (r: GR<Val>)
    requires e.Binary?
    ensures e.op == '=' ==> r.res.None?
    ensures r.res.Some? && IsBuiltinOp(e.op) ==> r.res.value.Op? && r.res.value.op == e.op
    ensures r.res.Some? && !IsBuiltinOp(e.op) ==>
      && r.res.value.CallV? && r.res.value.callee == "binary" + [e.op] && |r.res.value.args| == 2
      && "binary" + [e.op] in r.st.functions
    decreases e, 1, 0
  {
    if e.op == '=' then
      var rv := Gen(e.rhs, st);
      if rv.res.Some? then GR(None, rv.st)
      else if !e.lhs.Variable? then GR(None, rv.st)
      else
        var (target, named) := Lookup(rv.st.named, e.lhs.name);
        var s := rv.st.(named := named);
        if target.None? then GR(None, s)
        else GR(None, s.(stores := s.stores + [NullStore(target.value)]))
    else
      var lv := Gen(e.lhs, st);
      var rv := Gen(e.rhs, lv.st);
      if lv.res.None? || rv.res.None? then GR(None, rv.st)
      else if IsBuiltinOp(e.op) then GR(Some(Op(e.op, lv.res.value, rv.res.value)), rv.st)
      else
        var f := GetFn("binary" + [e.op], rv.st);
        if f.res.None? then GR(None, f.st)
        else GR(Some(CallV("binary" + [e.op], [lv.res.value, rv.res.value])), f.st)
  }

  /** IfExprAST::codegen (lines 839-889): condition, then branch, else branch, joined by a phi. */
  function GenIf(e: Expr, st: CgState): (r: GR<Val>)
    requires e.If?
    ensures r.res.Some? ==> r.res.value.Phi? && Gen(e.cond, st).res.Some?
    decreases e, 1, 0
  {
    var c := Gen(e.cond, st);
    if c.res.None? then GR(None, c.st)
    else
      var a := Gen(e.thenE, c.st);
      if a.res.None? then GR(None, a.st)
      else
        var b := Gen(e.elseE, a.st);
        if b.res.None? then GR(None, b.st)
        else GR(Some(Phi(c.res.value, a.res.value, b.res.value)), b.st)
  }

  /**
   * ForExprAST::codegen (lines 891-969).  The loop variable's slot is
   * allocated before the start value is generated, and the old binding is read
   * (with operator[]) after it.  The body, the step (1.0 when absent) and the
   * end condition follow; any failure returns at once with the loop variable
   * still bound.  On success the old binding is restored, or the name erased
   * when it had none, and the loop yields 0.0.
   */
  function GenFor(e: Expr, st: CgState): (r: GR<Val>)
    requires e.For?
    ensures r.res.Some? ==> r.res.value == Zero
    decreases e, 1, 0
  {
    var slot := st.next;
    var i := Gen(e.init, st.(next := st.next + 1));
    if i.res.None? then GR(None, i.st)
    else
      var s2 := i.st.(stores := i.st.stores + [Store(slot, i.res.value)]);
      var (oldVal, named) := Lookup(s2.named, e.varName);
      GenLoop(e, slot, oldVal, s2.(named := named[e.varName := Some(slot)]))
  }

  /**
   * The loop part of ForExprAST::codegen (lines 915-968), with the loop
   * variable bound to `slot` and its saved binding `oldVal`: body, step and
   * end condition, the increment stored back, and the old binding restored.
   */
  function GenLoop(e: Expr, slot: Slot, oldVal: Option<Slot>, st: CgState): (r: GR<Val>)
    requires e.For?
    ensures r.res.Some? ==> r.res.value == Zero && Bound(r.st.named, e.varName) == oldVal
    decreases e, 0, 0
  {
    var b := Gen(e.body, st);
    if b.res.None? then GR(None, b.st)
    else
      var sv := if e.step.None? then GR(Some(One), b.st) else Gen(e.step.value, b.st);
      if sv.res.None? then GR(None, sv.st)
      else
        var c := Gen(e.cond, sv.st);
        if c.res.None? then GR(None, c.st)
        else
          var s4 := c.st.(stores := c.st.stores + [Store(slot, Op('+', Load(Some(slot)), sv.res.value))]);
          var restored := if oldVal.Some? then s4.named[e.varName := oldVal] else s4.named - {e.varName};
          GR(Some(Zero), s4.(named := restored))
  }

  /**
   * VarExprAST::codegen (lines 779-825): every binding in turn, then the body,
   * then the saved bindings written back in source order (null entries
   * included).  A failure returns at once, with the bindings made so far still
   * in place.
   */
  function GenVar(e: Expr, st: CgState): GR<Val>
    requires e.Var?
    decreases e, 1, 0
  {
    var bs := GenBindings(e, 0, [], st);
    if bs.res.None? then GR(None, bs.st)
    else
      var b := Gen(e.body, bs.st);
      if b.res.None? then GR(None, b.st)
      else GR(b.res, b.st.(named := Restore(e.vars, bs.res.value, b.st.named)))
  }

  /**
   * The binding loop of VarExprAST::codegen (lines 785-812) from binding `i`
   * on, with the saved old bindings in `olds`: the initializer (0.0 when
   * absent) is generated before the name is rebound, so it sees the binding
   * the name had so far; then a slot is allocated and stored, the old binding
   * saved (operator[] again) and the name bound to the slot.
   */
  function GenBindings(e: Expr, i: nat, olds: seq<Option<Slot>>, st: CgState): (r: GR<seq<Option<Slot>>>)
    requires e.Var? && i <= |e.vars| && |olds| == i
    ensures r.res.Some? ==> |r.res.value| == |e.vars|
    decreases e, 0, |e.vars| - i
  {
    if i == |e.vars| then GR(Some(olds), st)
    else
      var bd := e.vars[i];
      assert bd in e.vars;
      var iv := if bd.init.None? then GR(Some(Zero), st) else Gen(bd.init.value, st);
      if iv.res.None? then GR(None, iv.st)
      else
        var (slot, s2) := Alloc(iv.st, iv.res.value);
        var (oldVal, named) := Lookup(s2.named, bd.name);
        GenBindings(e, i + 1, olds + [oldVal], s2.(named := named[bd.name := Some(slot)]))
  }

  /** The restore loop of VarExprAST::codegen (lines 820-821): names rebound to their saved entries, first to last. */
  function Restore(vars: seq<Binding>, olds: seq<Option<Slot>>, named: map<string, Option<Slot>>): (r: map<string, Option<Slot>>)
    requires |olds| == |vars|
    ensures r.Keys == named.Keys + (set b | b in vars :: b.name)
  {
    if vars == [] then named
    else Restore(vars[1..], olds[1..], named[vars[0].name := olds[0]])
  }

  /**
   * CallExprAST::codegen (lines 972-990): the callee is looked up, its
   * parameter count checked, then the arguments generated left to right up to
   * the first failure.
   */
  function GenCall(e: Expr, st: CgState): (r: GR<Val>)
    requires e.Call?
    ensures r.res.Some? ==>
      && GetFn(e.callee, st).res.Some? && |GetFn(e.callee, st).res.value.params| == |e.args|
      && r.res.value.CallV? && r.res.value.callee == e.callee && |r.res.value.args| == |e.args|
    decreases e, 1, 0
  {
    var f := GetFn(e.callee, st);
    if f.res.None? then GR(None, f.st)
    else if |f.res.value.params| != |e.args| then GR(None, f.st)
    else
      var a := GenArgs(e, 0, [], f.st);
      if a.res.None? then GR(None, a.st)
      else GR(Some(CallV(e.callee, a.res.value)), a.st)
  }

  /** The argument loop of CallExprAST::codegen (lines 983-987) from argument `i` on, with the values so far in `acc`. */
  function GenArgs(e: Expr, i: nat, acc: seq<Val>, st: CgState): (r: GR<seq<Val>>)
    requires e.Call? && i <= |e.args| && |acc| == i
    ensures r.res.Some? ==> |r.res.value| == |e.args| && r.res.value[..i] == acc
    decreases e, 0, |e.args| - i
  {
    if i == |e.args| then GR(Some(acc), st)
    else
      var a := Gen(e.args[i], st);
      if a.res.None? then GR(None, a.st)
      else GenArgs(e, i + 1, acc + [a.res.value], a.st)
  }

  /**
   * PrototypeAST::codegen (lines 992-1007): a declaration whose arguments
   * carry the prototype's parameter names, a repeated one numbered by the
   * function's symbol table.  LLVM gives a clashing second function a fresh
   * name; that renamed copy is not modelled, so an existing entry is kept.
   */
  function GenProto(p: Prototype, st: CgState): (r: CgState)
    ensures p.name in r.functions
    ensures p.name !in st.functions ==> r.functions == st.functions[p.name := FnDecl(ArgNames(p.args), false)]
    ensures p.name in st.functions ==> r == st
    ensures r.named == st.named && r.protos == st.protos && r.next == st.next && r.stores == st.stores
  {
    if p.name in st.functions then st else st.(functions := st.functions[p.name := FnDecl(ArgNames(p.args), false)])
  }

  /**
   * The parameter loop of FunctionAST::codegen (lines 1028-1038) from
   * parameter `i` on: a slot per parameter, the incoming argument stored in
   * it, and the name bound to it.
   */
  function BindParams(params: seq<string>, i: nat, st: CgState): (r: CgState)
    requires i <= |params|
    ensures r.next == st.next + (|params| - i)
    ensures r.functions == st.functions && r.protos == st.protos
    decreases |params| - i
  {
    if i == |params| then st
    else
      var (slot, s2) := Alloc(st, Param(i));
      BindParams(params, i + 1, s2.(named := s2.named[params[i] := Some(slot)]))
  }

  /**
   * The names FunctionAST::codegen binds: the argument names of the function
   * getFunction finds once the prototype is registered, which is the module's
   * existing function when there is one.
   */
  function EntryParams(p: Prototype, st: CgState): (ps: seq<string>)
    ensures p.name !in st.functions ==> ps == ArgNames(p.args)
  {
    if p.name in st.functions then st.functions[p.name].params else ArgNames(p.args)
  }

  /**
   * The state FunctionAST::codegen generates the body in (lines 1013-1038):
   * the prototype registered, the function found or declared, NamedValues
   * cleared and the parameters bound.
   */
  function FunctionEntry(p: Prototype, st: CgState): (r: CgState)
    ensures r.protos == st.protos[p.name := p]
    ensures p.name in r.functions && r.functions[p.name].params == EntryParams(p, st)
  {
    var s1 := st.(protos := st.protos[p.name := p]);
    var g := GetFn(p.name, s1);
    BindParams(g.res.value.params, 0, g.st.(named := map[]))
  }

  /** A function codegen result: the function's name on success, the state after, and BinopPrecedence after. */
  datatype FR = FR(res: Option<string>, st: CgState, prec: Table)

  /**
   * FunctionAST::codegen (lines 1009-1055).  The prototype is registered
   * first, so getFunction always finds the function: the module's existing
   * one if there is one (there is no redefinition check), else a new
   * declaration.  A binary operator's precedence is installed before the body
   * is generated.  A body that generates completes the function; one that
   * does not removes it from the module.
   */
  function GenFunction(f: FunctionDef, st: CgState, prec: Table): (r: FR)
    ensures r.res.Some? ==> r.res == Some(f.proto.name) && f.proto.name in r.st.functions && r.st.functions[f.proto.name].hasBody
    ensures r.res.None? ==> f.proto.name !in r.st.functions
    ensures f.proto.IsBinaryOp() && |f.proto.name| > 0 ==>
      f.proto.OperatorName() in r.prec && r.prec[f.proto.OperatorName()] == f.proto.precedence as int
    ensures !f.proto.IsBinaryOp() ==> r.prec == prec
  {
    var p := f.proto;
    var prec' := if p.IsBinaryOp() && |p.name| > 0 then prec[p.OperatorName() := p.BinaryPrecedence() as int] else prec;
    var params := EntryParams(p, st);
    var b := Gen(f.body, FunctionEntry(p, st));
    if b.res.Some? then
      FR(Some(p.name), b.st.(functions := b.st.functions[p.name := FnDecl(params, true)]), prec')
    else
      FR(None, b.st.(functions := b.st.functions - {p.name}), prec')
  }
}
