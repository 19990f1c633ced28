/**
 * The codegen routines of kaleidoscope/toy.cpp (lines 690-1055) as methods
 * updating the compiler's tables in place: NamedValues, the functions of
 * TheModule, FunctionProtos, the allocas and stores emitted, and (for
 * function definitions) BinopPrecedence.  Each method is proved to have the
 * effect of its reference definition in Generation.
 */
module Codegen {
  import opened Wrappers
  import opened Ast
  import opened Operators
  import opened Generation
  import opened Naming

  class CodeGen {
    var named: map<string, Option<Slot>>
    var functions: map<string, FnDecl>
    var protos: map<string, Prototype>
    var next: Slot
    var stores: seq<Store>
    /** BinopPrecedence, shared with the parser. */
    const ops: OperatorTable

    /** The tables as a value. */
    function State(): CgState
      reads this
    {
      CgState(named, functions, protos, next, stores)
    }

    /** Empty tables, sharing the precedence table `ops`. */
    constructor (ops: OperatorTable)
      ensures State() == CgState(map[], map[], map[], 0, []) && this.ops == ops
    {
      named := map[];
      functions := map[];
      protos := map[];
      next := 0;
      stores := [];
      this.ops := ops;
    }

    /**
     * InitializeModuleAndPassManager (lines 1057-1075): a fresh, empty module.
     * NamedValues, FunctionProtos and the emitted code are kept.
     */
    method InitializeModule()
      modifies this`functions
      ensures State() == old(State()).(functions := map[])
    {
      functions := map[];
    }

    /** NamedValues[x], which inserts a null entry for an absent name. */
    method LookupNamed(x: string) returns (v: Option<Slot>)
      modifies this
      ensures (v, named) == Lookup(old(named), x)
      ensures functions == old(functions) && protos == old(protos) && next == old(next) && stores == old(stores)
    {
      if x in named {
        v := named[x];
      } else {
        named := named[x := None];
        v := None;
      }
    }

    /** CreateEntryBlockAlloca followed by a store of `v`. */
    method Alloca(v: Val) returns (slot: Slot)
      modifies this
      ensures (slot, State()) == Alloc(old(State()), v)
    {
      slot := next;
      next := next + 1;
      stores := stores + [Store(slot, v)];
    }

    /** getFunction (lines 701-712). */
    method GetFunction(name: string) returns (f: Option<FnDecl>)
      modifies this
      ensures GR(f, State()) == GetFn(name, old(State()))
    {
      if name in functions {
        return Some(functions[name]);
      }
      if name in protos {
        var names := NameArguments(protos[name].args);
        var d := FnDecl(names, false);
        functions := functions[name := d];
        return Some(d);
      }
      return None;
    }

    /** ExprAST::codegen. */
    method Codegen(e: Expr) returns (v: Option<Val>)
      modifies this
      ensures GR(v, State()) == Gen(e, old(State()))
      decreases e, 2
    {
      match e {
        case Number(lexeme) => v := Some(Num(lexeme));
        case Variable(x) => v := CodegenVariable(x);
        case Unary(_, _) => v := CodegenUnary(e);
        case Binary(_, _, _) => v := CodegenBinary(e);
        case If(_, _, _) => v := CodegenIf(e);
        case For(_, _, _, _, _) => v := CodegenFor(e);
        case Var(_, _) => v := CodegenVar(e);
        case Call(_, _) => v := CodegenCall(e);
      }
    }

    /** VariableExprAST::codegen (lines 718-726). */
    method CodegenVariable(x: string) returns (v: Option<Val>)
      modifies this
      ensures GR(v, State()) == GenVariable(x, old(State()))
    {
      var slot := LookupNamed(x);
      v := Some(Load(slot));
    }

    /** UnaryExprAST::codegen (lines 827-837). */
    method CodegenUnary(e: Expr) returns (v: Option<Val>)
      requires e.Unary?
      modifies this
      ensures GR(v, State()) == GenUnary(e, old(State()))
      decreases e, 1
    {
      var operand := Codegen(e.operand);
      if operand.None? {
        return None;
      }
      var f := GetFunction("unary" + [e.opcode]);
      if f.None? {
        return None;
      }
      v := Some(CallV("unary" + [e.opcode], [operand.value]));
    }

    /** BinaryExprAST::codegen (lines 728-777). */
    method CodegenBinary(e: Expr) returns (v: Option<Val>)
      requires e.Binary?
      modifies this
      ensures GR(v, State()) == GenBinary(e, old(State()))
      decreases e, 1
    {
      if e.op == '=' {
        var val := Codegen(e.rhs);
        if val.Some? {
          return None;
        }
        if !e.lhs.Variable? {
          return None;
        }
        var target := LookupNamed(e.lhs.name);
        if target.Some? {
          stores := stores + [NullStore(target.value)];
        }
        return None;
      }
      var l := Codegen(e.lhs);
      var r := Codegen(e.rhs);
      if l.None? || r.None? {
        return None;
      }
      if IsBuiltinOp(e.op) {
        return Some(Op(e.op, l.value, r.value));
      }
      var f := GetFunction("binary" + [e.op]);
      if f.None? {
        return None;
      }
      v := Some(CallV("binary" + [e.op], [l.value, r.value]));
    }

    /** IfExprAST::codegen (lines 839-889). */
    method CodegenIf(e: Expr) returns (v: Option<Val>)
      requires e.If?
      modifies this
      ensures GR(v, State()) == GenIf(e, old(State()))
      decreases e, 1
    {
      var c := Codegen(e.cond);
      if c.None? {
        return None;
      }
      var a := Codegen(e.thenE);
      if a.None? {
        return None;
      }
      var b := Codegen(e.elseE);
      if b.None? {
        return None;
      }
      v := Some(Phi(c.value, a.value, b.value));
    }

    /** ForExprAST::codegen (lines 891-969). */
    method CodegenFor(e: Expr) returns (v: Option<Val>)
      requires e.For?
      modifies this
      ensures GR(v, State()) == GenFor(e, old(State()))
      decreases e, 1
    {
      ghost var s0 := State();
      var slot := next;
      next := next + 1;
      var init := Codegen(e.init);
      if init.None? {
        return None;
      }
      stores := stores + [Store(slot, init.value)];
      var oldVal := LookupNamed(e.varName);
      named := named[e.varName := Some(slot)];
      assert GenFor(e, s0) == GenLoop(e, slot, oldVal, State());
      v := CodegenLoop(e, slot, oldVal);
    }

    /** The loop part of ForExprAST::codegen (lines 915-968). */
    method CodegenLoop(e: Expr, slot: Slot, oldVal: Option<Slot>) returns (v: Option<Val>)
      requires e.For?
      modifies this
      ensures GR(v, State()) == GenLoop(e, slot, oldVal, old(State()))
      decreases e, 0
    {
      var body := Codegen(e.body);
      if body.None? {
        return None;
      }
      var step: Option<Val>;
      if e.step.Some? {
        step := Codegen(e.step.value);
        if step.None? {
          return None;
        }
      } else {
        step := Some(One);
      }
      var endCond := Codegen(e.cond);
      if endCond.None? {
        return None;
      }
      stores := stores + [Store(slot, Op('+', Load(Some(slot)), step.value))];
      if oldVal.Some? {
        named := named[e.varName := oldVal];
      } else {
        named := named - {e.varName};
      }
      v := Some(Zero);
    }

    /** VarExprAST::codegen (lines 779-825). */
    method CodegenVar(e: Expr) returns (v: Option<Val>)
      requires e.Var?
      modifies this
      ensures GR(v, State()) == GenVar(e, old(State()))
      decreases e, 1
    {
      var oldBindings := CodegenBindings(e);
      if oldBindings.None? {
        return None;
      }
      v := Codegen(e.body);
      if v.None? {
        return None;
      }
      RestoreBindings(e.vars, oldBindings.value);
    }

    /**
     * The binding loop of VarExprAST::codegen (lines 785-812): the saved
     * entries of the names bound, or nothing when an initialiser fails.
     */
    method CodegenBindings(e: Expr) returns (oldBindings: Option<seq<Option<Slot>>>)
      requires e.Var?
      modifies this
      ensures GR(oldBindings, State()) == GenBindings(e, 0, [], old(State()))
      decreases e, 0, |e.vars|
    {
      ghost var goal := GenBindings(e, 0, [], State());
      var olds: seq<Option<Slot>> := [];
      var i := 0;
      while i < |e.vars|
        invariant i <= |e.vars| && |olds| == i
        invariant GenBindings(e, i, olds, State()) == goal
        decreases |e.vars| - i
      {
        var bd := e.vars[i];
        assert bd in e.vars;
        var initVal: Option<Val>;
        if bd.init.Some? {
          initVal := Codegen(bd.init.value);
          if initVal.None? {
            return None;
          }
        } else {
          initVal := Some(Zero);
        }
        var slot := Alloca(initVal.value);
        var oldVal := LookupNamed(bd.name);
        olds := olds + [oldVal];
        named := named[bd.name := Some(slot)];
        i := i + 1;
      }
      return Some(olds);
    }

    /** The restore loop of VarExprAST::codegen (lines 820-821). */
    method RestoreBindings(vars: seq<Binding>, olds: seq<Option<Slot>>)
      requires |olds| == |vars|
      modifies this
      ensures named == Restore(vars, olds, old(named))
      ensures functions == old(functions) && protos == old(protos) && next == old(next) && stores == old(stores)
    {
      var i := 0;
      while i < |vars|
        invariant i <= |vars|
        invariant functions == old(functions) && protos == old(protos) && next == old(next) && stores == old(stores)
        invariant Restore(vars[i..], olds[i..], named) == Restore(vars, olds, old(named))
        decreases |vars| - i
      {
        assert vars[i..][1..] == vars[i + 1..] && olds[i..][1..] == olds[i + 1..];
        named := named[vars[i].name := olds[i]];
        i := i + 1;
      }
    }

    /** CallExprAST::codegen (lines 972-990). */
    method CodegenCall(e: Expr) returns (v: Option<Val>)
      requires e.Call?
      modifies this
      ensures GR(v, State()) == GenCall(e, old(State()))
      decreases e, 1
    {
      var calleeF := GetFunction(e.callee);
      if calleeF.None? {
        return None;
      }
      if |calleeF.value.params| != |e.args| {
        return None;
      }
      ghost var goal := GenArgs(e, 0, [], State());
      var argsV: seq<Val> := [];
      var i := 0;
      while i < |e.args|
        invariant i <= |e.args| && |argsV| == i
        invariant GenArgs(e, i, argsV, State()) == goal
        decreases |e.args| - i
      {
        var a := Codegen(e.args[i]);
        if a.None? {
          return None;
        }
        argsV := argsV + [a.value];
        i := i + 1;
      }
      v := Some(CallV(e.callee, argsV));
    }

    /** PrototypeAST::codegen (lines 992-1007). */
    method CodegenProto(p: Prototype)
      modifies this
      ensures State() == GenProto(p, old(State()))
    {
      if p.name !in functions {
        var names := NameArguments(p.args);
        functions := functions[p.name := FnDecl(names, false)];
      }
    }

    /**
     * The naming loop of PrototypeAST::codegen (lines 1001-1004): setName on
     * each argument in turn, against the names the new function's symbol
     * table holds (`taken`) and its counter of numbered names (`last`).
     */
    static method NameArguments(args: seq<string>) returns (names: seq<string>)
      ensures names == ArgNames(args)
    {
      var taken: set<string> := {};
      var last: nat := 0;
      names := [];
      var i := 0;
      while i < |args|
        invariant i <= |args|
        invariant names + Rename(args[i..], taken, last) == ArgNames(args)
      {
        var (n, last') := SetName(args[i], taken, last);
        assert args[i..][1..] == args[i + 1..];
        taken, last := taken + {n}, last';
        names := names + [n];
        i := i + 1;
      }
      assert args[i..] == [];
    }

    /**
     * The prologue of FunctionAST::codegen (lines 1013-1038): the prototype
     * registered, the function found or declared, NamedValues cleared and
     * each parameter given a slot holding its incoming value.
     */
    method EnterFunction(p: Prototype) returns (params: seq<string>)
      modifies this
      ensures State() == FunctionEntry(p, old(State())) && params == EntryParams(p, old(State()))
    {
      protos := protos[p.name := p];
      var theFunction := GetFunction(p.name);
      params := theFunction.value.params;
      named := map[];
      ghost var entry := BindParams(params, 0, State());
      var i := 0;
      while i < |params|
        invariant i <= |params|
        invariant BindParams(params, i, State()) == entry
        decreases |params| - i
      {
        var slot := Alloca(Param(i));
        named := named[params[i] := Some(slot)];
        i := i + 1;
      }
    }

    /** FunctionProtos[name] = proto, as HandleExtern does (line 1099). */
    method AddProto(p: Prototype)
      modifies this`protos
      ensures State() == old(State()).(protos := old(protos)[p.name := p])
    {
      protos := protos[p.name := p];
    }

    /** FunctionAST::codegen (lines 1009-1055). */
    method CodegenFunction(f: FunctionDef) returns (r: Option<string>)
      modifies this, ops
      ensures FR(r, State(), ops.prec) == GenFunction(f, old(State()), old(ops.prec))
    {
      var p := f.proto;
      var params := EnterFunction(p);
      if p.IsBinaryOp() && |p.name| > 0 {
        ops.prec := ops.prec[p.OperatorName() := p.BinaryPrecedence() as int];
      }
      var retVal := Codegen(f.body);
      if retVal.Some? {
        functions := functions[p.name := FnDecl(params, true)];
        return Some(p.name);
      }
      functions := functions - {p.name};
      return None;
    }
  }
}
