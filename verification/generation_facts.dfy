/**
 * Properties of codegen's effects: what an expression's codegen may change,
 * the scoping of for loops and var groups, the quirks of the code as
 * written, call lookup and arity, and function codegen.
 */
module GenerationFacts {
  import opened Wrappers
  import opened Ast
  import opened Operators
  import opened Generation
  import opened Naming

  /**
   * What expression codegen may change: FunctionProtos is untouched, the
   * module's functions are kept as they are, the only functions added are
   * declarations of registered prototypes, slots are only allocated and stores
   * only appended.
   */
  predicate Frame(st: CgState, s: CgState) {
    && s.protos == st.protos
    && (forall n :: n in st.functions ==> n in s.functions && s.functions[n] == st.functions[n])
    && (forall n :: n in s.functions && n !in st.functions ==>
          n in st.protos && s.functions[n] == FnDecl(ArgNames(st.protos[n].args), false))
    && st.next <= s.next
    && st.stores <= s.stores
  }

  /** Every function of the module has distinct argument names. */
  predicate Declared(st: CgState) {
    forall n :: n in st.functions ==> Distinct(st.functions[n].params)
  }

  /** Codegen within Frame keeps the argument names of the module's functions distinct. */
  lemma FrameDeclared(st: CgState, s: CgState)
    requires Frame(st, s) && Declared(st)
    ensures Declared(s)
  {
    forall n | n in s.functions ensures Distinct(s.functions[n].params) {
      if n !in st.functions {
        var ps := s.functions[n].params;
        assert ps == ArgNames(st.protos[n].args);
      }
    }
  }

  /** Codegen of any expression stays within Frame. */
  lemma {:induction false} GenFrame(e: Expr, st: CgState)
    ensures Frame(st, Gen(e, st).st)
    decreases e, 2
  {
    match e
    case Number(_) =>
    case Variable(_) =>
    case Unary(_, _) => UnaryFrame(e, st);
    case Binary(_, _, _) => BinaryFrame(e, st);
    case If(_, _, _) => IfFrame(e, st);
    case For(_, _, _, _, _) => ForFrame(e, st);
    case Var(_, _) => VarFrame(e, st);
    case Call(_, _) => ArgsFrame(e, 0, [], GetFn(e.callee, st).st);
  }

  /** The unary case of GenFrame. */
  lemma {:induction false} UnaryFrame(e: Expr, st: CgState)
    requires e.Unary?
    ensures Frame(st, Gen(e, st).st)
    decreases e, 1
  {
    GenFrame(e.operand, st);
  }

  /** The binary case of GenFrame. */
  lemma {:induction false} BinaryFrame(e: Expr, st: CgState)
    requires e.Binary?
    ensures Frame(st, Gen(e, st).st)
    decreases e, 1
  {
    if e.op == '=' {
      GenFrame(e.rhs, st);
    } else {
      GenFrame(e.lhs, st);
      GenFrame(e.rhs, Gen(e.lhs, st).st);
    }
  }

  /** The if case of GenFrame. */
  lemma {:induction false} IfFrame(e: Expr, st: CgState)
    requires e.If?
    ensures Frame(st, Gen(e, st).st)
    decreases e, 1
  {
    GenFrame(e.cond, st);
    var s1 := Gen(e.cond, st).st;
    GenFrame(e.thenE, s1);
    GenFrame(e.elseE, Gen(e.thenE, s1).st);
  }

  /** The var case of GenFrame. */
  lemma {:induction false} VarFrame(e: Expr, st: CgState)
    requires e.Var?
    ensures Frame(st, Gen(e, st).st)
    decreases e, 1
  {
    BindingsFrame(e, 0, [], st);
    GenFrame(e.body, GenBindings(e, 0, [], st).st);
  }

  /** The for case of GenFrame. */
  lemma {:induction false} ForFrame(e: Expr, st: CgState)
    requires e.For?
    ensures Frame(st, Gen(e, st).st)
    decreases e, 1
  {
    var s0 := st.(next := st.next + 1);
    GenFrame(e.init, s0);
    var i := Gen(e.init, s0);
    if i.res.Some? {
      var s2 := i.st.(stores := i.st.stores + [Store(st.next, i.res.value)]);
      var (oldVal, named) := Lookup(s2.named, e.varName);
      LoopFrame(e, st.next, oldVal, s2.(named := named[e.varName := Some(st.next)]));
    }
  }

  /** The loop part of a for loop stays within Frame. */
  lemma {:induction false} LoopFrame(e: Expr, slot: Slot, oldVal: Option<Slot>, st: CgState)
    requires e.For?
    ensures Frame(st, GenLoop(e, slot, oldVal, st).st)
    decreases e, 0
  {
    GenFrame(e.body, st);
    var b := Gen(e.body, st);
    if b.res.Some? {
      if e.step.Some? {
        GenFrame(e.step.value, b.st);
      }
      var sv := if e.step.None? then GR(Some(One), b.st) else Gen(e.step.value, b.st);
      if sv.res.Some? {
        GenFrame(e.cond, sv.st);
      }
    }
  }

  /** The binding loop of a var group stays within Frame. */
  lemma {:induction false} BindingsFrame(e: Expr, i: nat, olds: seq<Option<Slot>>, st: CgState)
    requires e.Var? && i <= |e.vars| && |olds| == i
    ensures Frame(st, GenBindings(e, i, olds, st).st)
    decreases e, 0, |e.vars| - i
  {
    if i < |e.vars| {
      var bd := e.vars[i];
      assert bd in e.vars;
      if bd.init.Some? {
        GenFrame(bd.init.value, st);
      }
      var iv := if bd.init.None? then GR(Some(Zero), st) else Gen(bd.init.value, st);
      if iv.res.Some? {
        var (slot, s2) := Alloc(iv.st, iv.res.value);
        var (oldVal, named) := Lookup(s2.named, bd.name);
        BindingsFrame(e, i + 1, olds + [oldVal], s2.(named := named[bd.name := Some(slot)]));
      }
    }
  }

  /** The argument loop of a call stays within Frame. */
  lemma {:induction false} ArgsFrame(e: Expr, i: nat, acc: seq<Val>, st: CgState)
    requires e.Call? && i <= |e.args| && |acc| == i
    ensures Frame(st, GenArgs(e, i, acc, st).st)
    decreases e, 0, |e.args| - i
  {
    if i < |e.args| {
      GenFrame(e.args[i], st);
      var a := Gen(e.args[i], st);
      if a.res.Some? {
        ArgsFrame(e, i + 1, acc + [a.res.value], a.st);
      }
    }
  }

  /** Two NamedValues maps bind every name alike (an absent entry and a null entry both meaning unbound). */
  ghost predicate SameScope(a: map<string, Option<Slot>>, b: map<string, Option<Slot>>) {
    forall y :: Bound(a, y) == Bound(b, y)
  }

  /** None of the first `n` bindings of `vs` binds `y`. */
  predicate Unbound(vs: seq<Binding>, n: nat, y: string) {
    forall j :: 0 <= j < n && j < |vs| ==> vs[j].name != y
  }

  /**
   * Codegen of an expression that succeeds leaves every name bound as it
   * found it, provided no var group in it binds a name twice: for loops and
   * var groups put back the bindings they shadowed.
   */
  lemma {:induction false} ScopeRestored(e: Expr, st: CgState)
    requires NoDupVars(e)
    ensures var r := Gen(e, st); r.res.Some? ==> SameScope(r.st.named, st.named)
    decreases e, 2
  {
    match e
    case Number(_) =>
    case Variable(_) =>
    case Unary(_, x) =>
      ScopeRestored(x, st);
    case Binary(op, l, r) =>
      if op != '=' {
        ScopeRestored(l, st);
        ScopeRestored(r, Gen(l, st).st);
      }
    case If(c, a, b) =>
      ScopeRestored(c, st);
      var s1 := Gen(c, st).st;
      ScopeRestored(a, s1);
      ScopeRestored(b, Gen(a, s1).st);
    case For(_, _, _, _, _) =>
      ForScope(e, st);
    case Var(_, _) =>
      VarScope(e, st);
    case Call(callee, _) =>
      ArgsScope(e, 0, [], GetFn(callee, st).st);
  }

  /** The for case of ScopeRestored: the loop variable gets back its old binding, or none. */
  lemma {:induction false} ForScope(e: Expr, st: CgState)
    requires e.For? && NoDupVars(e)
    ensures var r := Gen(e, st); r.res.Some? ==> SameScope(r.st.named, st.named)
    decreases e, 1
  {
    var s0 := st.(next := st.next + 1);
    ScopeRestored(e.init, s0);
    var i := Gen(e.init, s0);
    if i.res.Some? {
      var s2 := i.st.(stores := i.st.stores + [Store(st.next, i.res.value)]);
      var (oldVal, named) := Lookup(s2.named, e.varName);
      var s3 := s2.(named := named[e.varName := Some(st.next)]);
      LoopScope(e, st.next, oldVal, s3);
      var r := GenLoop(e, st.next, oldVal, s3);
      if r.res.Some? {
        forall y ensures Bound(r.st.named, y) == Bound(st.named, y) {
          if y != e.varName {
            assert Bound(s3.named, y) == Bound(named, y);
          }
        }
      }
    }
  }

  /**
   * The loop part of a for loop: when it succeeds, the loop variable ends
   * with the saved binding `oldVal` (or none) and every other name as the
   * loop found it.
   */
  lemma {:induction false} LoopScope(e: Expr, slot: Slot, oldVal: Option<Slot>, st: CgState)
    requires e.For? && NoDupVars(e)
    ensures var r := GenLoop(e, slot, oldVal, st);
      r.res.Some? ==>
        && Bound(r.st.named, e.varName) == oldVal
        && forall y :: y != e.varName ==> Bound(r.st.named, y) == Bound(st.named, y)
    decreases e, 0
  {
    ScopeRestored(e.body, st);
    var b := Gen(e.body, st);
    if b.res.Some? {
      if e.step.Some? {
        ScopeRestored(e.step.value, b.st);
      }
      var sv := if e.step.None? then GR(Some(One), b.st) else Gen(e.step.value, b.st);
      if sv.res.Some? {
        ScopeRestored(e.cond, sv.st);
      }
    }
  }

  /** The var case of ScopeRestored: the saved bindings are the outer ones, and writing them back restores the scope. */
  lemma {:induction false} VarScope(e: Expr, st: CgState)
    requires e.Var? && NoDupVars(e)
    ensures var r := Gen(e, st); r.res.Some? ==> SameScope(r.st.named, st.named)
    decreases e, 1
  {
    BindingsScope(e, 0, [], st, st.named);
    var bs := GenBindings(e, 0, [], st);
    if bs.res.Some? {
      ScopeRestored(e.body, bs.st);
      var b := Gen(e.body, bs.st);
      if b.res.Some? {
        RestoreBinds(e.vars, bs.res.value, b.st.named);
        var r := Restore(e.vars, bs.res.value, b.st.named);
        forall y ensures Bound(r, y) == Bound(st.named, y) {
          if !Unbound(e.vars, |e.vars|, y) {
            var j :| 0 <= j < |e.vars| && e.vars[j].name == y;
            assert Bound(r, e.vars[j].name) == bs.res.value[j];
          }
        }
      }
    }
  }

  /**
   * The binding loop of a var group without repeated names: every saved
   * binding is the one the name had outside the group, and the names the
   * group does not bind keep their outer binding.
   */
  lemma {:induction false} BindingsScope(e: Expr, i: nat, olds: seq<Option<Slot>>, st: CgState, outer: map<string, Option<Slot>>)
    requires e.Var? && NoDupVars(e) && i <= |e.vars| && |olds| == i
    requires forall j :: 0 <= j < i ==> olds[j] == Bound(outer, e.vars[j].name)
    requires forall y :: Unbound(e.vars, i, y) ==> Bound(st.named, y) == Bound(outer, y)
    ensures var r := GenBindings(e, i, olds, st);
      r.res.Some? ==>
        && (forall j :: 0 <= j < |e.vars| ==> r.res.value[j] == Bound(outer, e.vars[j].name))
        && (forall y :: Unbound(e.vars, |e.vars|, y) ==> Bound(r.st.named, y) == Bound(outer, y))
    decreases e, 0, |e.vars| - i
  {
    if i < |e.vars| {
      var bd := e.vars[i];
      assert bd in e.vars;
      if bd.init.Some? {
        ScopeRestored(bd.init.value, st);
      }
      var iv := if bd.init.None? then GR(Some(Zero), st) else Gen(bd.init.value, st);
      if iv.res.Some? {
        var (slot, s2) := Alloc(iv.st, iv.res.value);
        var (oldVal, named) := Lookup(s2.named, bd.name);
        assert Unbound(e.vars, i, bd.name);
        assert oldVal == Bound(outer, bd.name);
        var olds' := olds + [oldVal];
        forall j | 0 <= j < i + 1 ensures olds'[j] == Bound(outer, e.vars[j].name) {
          if j < i {
            assert olds'[j] == olds[j];
          }
        }
        var s3 := s2.(named := named[bd.name := Some(slot)]);
        forall y | Unbound(e.vars, i + 1, y) ensures Bound(s3.named, y) == Bound(outer, y) {
          assert Unbound(e.vars, i, y);
        }
        BindingsScope(e, i + 1, olds', s3, outer);
      }
    }
  }

  /**
   * Writing the saved bindings back, first to last: with no repeated name,
   * each name of the group ends with its own saved entry and every other
   * name is untouched.
   */
  lemma {:induction false} RestoreBinds(vars: seq<Binding>, olds: seq<Option<Slot>>, named: map<string, Option<Slot>>)
    requires |olds| == |vars|
    requires forall i, j :: 0 <= i < j < |vars| ==> vars[i].name != vars[j].name
    ensures var r := Restore(vars, olds, named);
      && (forall j :: 0 <= j < |vars| ==> Bound(r, vars[j].name) == olds[j])
      && (forall y :: Unbound(vars, |vars|, y) ==> Bound(r, y) == Bound(named, y))
  {
    if vars != [] {
      var named' := named[vars[0].name := olds[0]];
      RestoreBinds(vars[1..], olds[1..], named');
      var r := Restore(vars, olds, named);
      forall j | 0 <= j < |vars| ensures Bound(r, vars[j].name) == olds[j] {
        if j == 0 {
          assert Unbound(vars[1..], |vars| - 1, vars[0].name);
        } else {
          assert vars[j] == vars[1..][j - 1];
        }
      }
      forall y | Unbound(vars, |vars|, y) ensures Bound(r, y) == Bound(named, y) {
        assert Unbound(vars[1..], |vars| - 1, y);
      }
    }
  }

  /** The argument loop of a call whose arguments succeed leaves the scope as it found it. */
  lemma {:induction false} ArgsScope(e: Expr, i: nat, acc: seq<Val>, st: CgState)
    requires e.Call? && NoDupVars(e) && i <= |e.args| && |acc| == i
    ensures var r := GenArgs(e, i, acc, st); r.res.Some? ==> SameScope(r.st.named, st.named)
    decreases e, 0, |e.args| - i
  {
    if i < |e.args| {
      ScopeRestored(e.args[i], st);
      var a := Gen(e.args[i], st);
      if a.res.Some? {
        ArgsScope(e, i + 1, acc + [a.res.value], a.st);
      }
    }
  }

  /**
   * An assignment never yields a value.  A right side that generates returns
   * null at once, with no store; one that fails has its null value stored
   * into a bound variable target, and nothing stored otherwise.
   */
  lemma AssignmentYieldsNothing(l: Expr, r: Expr, st: CgState)
    ensures var a := Gen(Binary('=', l, r), st);
      var rv := Gen(r, st);
      && a.res.None?
      && (rv.res.Some? ==> a.st == rv.st)
      && (rv.res.None? && l.Variable? && Bound(rv.st.named, l.name).Some? ==>
            a.st.stores == rv.st.stores + [NullStore(Bound(rv.st.named, l.name).value)])
      && (rv.res.None? && !(l.Variable? && Bound(rv.st.named, l.name).Some?) ==> a.st.stores == rv.st.stores)
  {
  }

  /** A reference to an unknown name still loads, from the null entry that the lookup leaves behind. */
  lemma UnknownVariableLoads(x: string, st: CgState)
    requires Bound(st.named, x).None?
    ensures var r := Gen(Variable(x), st);
      r.res == Some(Load(None)) && x in r.st.named && r.st.named[x].None?
  {
  }

  /** A for loop that generates yields the constant 0.0. */
  lemma ForYieldsZero(e: Expr, st: CgState)
    requires e.For?
    ensures var r := Gen(e, st); r.res.Some? ==> r.res.value == Zero
  {
    var s0 := st.(next := st.next + 1);
    var i := Gen(e.init, s0);
    if i.res.Some? {
      var s2 := i.st.(stores := i.st.stores + [Store(st.next, i.res.value)]);
      var (oldVal, named) := Lookup(s2.named, e.varName);
      assert Gen(e, st) == GenLoop(e, st.next, oldVal, s2.(named := named[e.varName := Some(st.next)]));
    }
  }

  /**
   * A var group whose initializer mentions its own name reads the binding
   * from outside the group: the first store of the group writes a load of
   * the outer slot.
   */
  lemma VarInitSeesOuter(x: string, body: Expr, st: CgState)
    ensures var r := Gen(Var([Binding(x, Some(Variable(x)))], body), st);
      |st.stores| < |r.st.stores| && r.st.stores[|st.stores|] == Store(st.next, Load(Bound(st.named, x)))
  {
    var e := Var([Binding(x, Some(Variable(x)))], body);
    assert e.vars[0] == Binding(x, Some(Variable(x)));
    var iv := Gen(Variable(x), st);
    assert iv.res == Some(Load(Bound(st.named, x))) && iv.st.stores == st.stores && iv.st.next == st.next;
    var (slot, s2) := Alloc(iv.st, iv.res.value);
    var (oldVal, named) := Lookup(s2.named, x);
    var s3 := s2.(named := named[x := Some(slot)]);
    assert [] + [oldVal] == [oldVal];
    assert GenBindings(e, 0, [], st) == GenBindings(e, 1, [oldVal], s3);
    assert GenBindings(e, 1, [oldVal], s3) == GR(Some([oldVal]), s3);
    GenFrame(body, s3);
  }

  /**
   * Later initializers of a var group see the earlier bindings of the same
   * group: in `var a = 1, b = a`, the second store loads the slot just
   * allocated for a.
   */
  lemma VarInitSeesEarlierSibling(a: string, b: string, body: Expr, st: CgState)
    ensures var r := Gen(Var([Binding(a, Some(Number("1"))), Binding(b, Some(Variable(a)))], body), st);
      |st.stores| + 1 < |r.st.stores| && r.st.stores[|st.stores| + 1] == Store(st.next + 1, Load(Some(st.next)))
  {
    var e := Var([Binding(a, Some(Number("1"))), Binding(b, Some(Variable(a)))], body);
    assert e.vars[0] == Binding(a, Some(Number("1"))) && e.vars[1] == Binding(b, Some(Variable(a)));
    assert Gen(Number("1"), st) == GR(Some(Num("1")), st);
    var (slot1, s1) := Alloc(st, Num("1"));
    var (old1, named1) := Lookup(s1.named, a);
    var t1 := s1.(named := named1[a := Some(slot1)]);
    var iv := Gen(Variable(a), t1);
    assert iv.res == Some(Load(Some(st.next))) && iv.st.stores == t1.stores && iv.st.next == t1.next;
    var (slot2, s2) := Alloc(iv.st, iv.res.value);
    var (old2, named2) := Lookup(s2.named, b);
    var t2 := s2.(named := named2[b := Some(slot2)]);
    assert [] + [old1] == [old1] && [old1] + [old2] == [old1, old2];
    assert GenBindings(e, 0, [], st) == GenBindings(e, 1, [old1], t1);
    assert GenBindings(e, 1, [old1], t1) == GenBindings(e, 2, [old1, old2], t2);
    assert GenBindings(e, 2, [old1, old2], t2) == GR(Some([old1, old2]), t2);
    assert t2.stores == st.stores + [Store(st.next, Num("1")), Store(st.next + 1, Load(Some(st.next)))];
    GenFrame(body, t2);
    var bst := Gen(body, t2).st;
    assert Gen(e, st).st.stores == bst.stores;
    assert bst.stores[|st.stores| + 1] == t2.stores[|st.stores| + 1];
  }

  /**
   * The saved bindings are written back first to last, so a name bound twice
   * in one group ends bound to the group's own first slot: with `var x, x`
   * for an unbound x, x dangles after the group instead of being unbound.
   */
  lemma DuplicateVarLeaks(x: string, n: string, st: CgState)
    requires Bound(st.named, x).None?
    ensures var r := Gen(Var([Binding(x, None), Binding(x, None)], Number(n)), st);
      r.res.Some? && Bound(r.st.named, x) == Some(st.next)
  {
    var e := Var([Binding(x, None), Binding(x, None)], Number(n));
    assert e.vars[0] == e.vars[1] == Binding(x, None);
    var none: Option<Slot> := None;
    var (slot1, s1) := Alloc(st, Zero);
    var (old1, named1) := Lookup(s1.named, x);
    var t1 := s1.(named := named1[x := Some(st.next)]);
    var (slot2, s2) := Alloc(t1, Zero);
    var (old2, named2) := Lookup(s2.named, x);
    var t2 := s2.(named := named2[x := Some(st.next + 1)]);
    var olds: seq<Option<Slot>> := [old1, old2];
    assert old1 == none && old2 == Some(st.next);
    assert [] + [old1] == [old1] && [old1] + [old2] == olds;
    assert GenBindings(e, 0, [], st) == GenBindings(e, 1, [old1], t1);
    assert GenBindings(e, 1, [old1], t1) == GenBindings(e, 2, olds, t2);
    assert GenBindings(e, 2, olds, t2) == GR(Some(olds), t2);
    assert Gen(Number(n), t2) == GR(Some(Num(n)), t2);
    var m1 := t2.named[x := none];
    assert e.vars[1..] == [Binding(x, None)] && olds[1..] == [Some(st.next)];
    assert Restore(e.vars[1..], olds[1..], m1) == Restore([], [], m1[x := Some(st.next)]);
    assert Restore(e.vars, olds, t2.named) == m1[x := Some(st.next)];
    assert Gen(e, st) == GenVar(e, st) == GR(Some(Num(n)), t2.(named := m1[x := Some(st.next)]));
  }

  /**
   * A for loop whose body fails returns without unwinding: the loop variable
   * stays bound to the loop's slot.
   */
  lemma ForFailureLeaks(x: string, init: string, cond: string, callee: string, st: CgState)
    requires callee !in st.functions && callee !in st.protos
    ensures var r := Gen(For(x, Number(init), Number(cond), None, Call(callee, [])), st);
      r.res.None? && Bound(r.st.named, x) == Some(st.next)
  {
    var e := For(x, Number(init), Number(cond), None, Call(callee, []));
    var s0 := st.(next := st.next + 1);
    assert Gen(Number(init), s0) == GR(Some(Num(init)), s0);
    var s2 := s0.(stores := s0.stores + [Store(st.next, Num(init))]);
    var named := Lookup(s2.named, x).1;
    var s3 := s2.(named := named[x := Some(st.next)]);
    assert GetFn(callee, s3) == GR(None, s3);
    assert Gen(Call(callee, []), s3) == GR(None, s3);
    assert Gen(e, st) == GenFor(e, st) == GR(None, s3);
  }

  /**
   * A var group whose second initializer fails returns without unwinding:
   * the first name stays bound to the slot the group allocated for it.
   */
  lemma VarFailureLeaks(x: string, init: string, y: string, callee: string, body: Expr, st: CgState)
    requires callee !in st.functions && callee !in st.protos
    ensures var r := Gen(Var([Binding(x, Some(Number(init))), Binding(y, Some(Call(callee, [])))], body), st);
      r.res.None? && Bound(r.st.named, x) == Some(st.next)
  {
    var e := Var([Binding(x, Some(Number(init))), Binding(y, Some(Call(callee, [])))], body);
    assert Gen(Number(init), st) == GR(Some(Num(init)), st);
    var (slot, s2) := Alloc(st, Num(init));
    var named := Lookup(s2.named, x).1;
    var s3 := s2.(named := named[x := Some(slot)]);
    assert GenBindings(e, 0, [], st) == GenBindings(e, 1, [Bound(st.named, x)], s3);
    assert GetFn(callee, s3) == GR(None, s3);
    assert Gen(Call(callee, []), s3) == GR(None, s3);
    assert GenBindings(e, 1, [Bound(st.named, x)], s3) == GR(None, s3);
    assert Gen(e, st) == GenVar(e, st) == GR(None, s3);
  }

  /** Once getFunction finds a name, it finds the same function again without changing anything. */
  lemma GetFnIdempotent(name: string, st: CgState)
    ensures var r := GetFn(name, st); r.res.Some? ==> GetFn(name, r.st) == r
  {
  }

  /**
   * A call generates only when getFunction finds the callee with as many
   * parameters as the call has arguments; then its value is a call with one
   * value per argument.  A wrong count fails before any argument is generated.
   */
  lemma CallArity(e: Expr, st: CgState)
    requires e.Call?
    ensures var f := GetFn(e.callee, st);
      var r := Gen(e, st);
      && (f.res.None? ==> r == GR(None, st))
      && (f.res.Some? && |f.res.value.params| != |e.args| ==> r == GR(None, f.st))
      && (r.res.Some? ==>
            && f.res.Some? && |f.res.value.params| == |e.args|
            && r.res.value.CallV? && r.res.value.callee == e.callee && |r.res.value.args| == |e.args|)
  {
  }

  /** No parameter after the j-th has its name. */
  predicate LastOccurrence(params: seq<string>, j: int)
    requires 0 <= j < |params|
  {
    forall k :: j < k < |params| ==> params[k] != params[j]
  }

  /** The parameter loop from parameter `i` on leaves every name not among the remaining parameters as it was. */
  lemma {:induction false} BindParamsOthers(params: seq<string>, i: nat, st: CgState, y: string)
    requires i <= |params| && y !in params[i..]
    ensures Bound(BindParams(params, i, st).named, y) == Bound(st.named, y)
    decreases |params| - i
  {
    if i < |params| {
      var s3 := st.(next := st.next + 1, stores := st.stores + [Store(st.next, Param(i))], named := st.named[params[i] := Some(st.next)]);
      assert BindParams(params, i, st) == BindParams(params, i + 1, s3);
      assert y != params[i] && y !in params[i + 1..];
      BindParamsOthers(params, i + 1, s3, y);
    }
  }

  /** The parameter loop from parameter `i` on binds the last occurrence j of a name to slot next+(j-i). */
  lemma {:induction false} BindParamsLast(params: seq<string>, i: nat, st: CgState, j: nat)
    requires i <= j < |params| && LastOccurrence(params, j)
    ensures Bound(BindParams(params, i, st).named, params[j]) == Some(st.next + (j - i))
    decreases |params| - i
  {
    var s3 := st.(next := st.next + 1, stores := st.stores + [Store(st.next, Param(i))], named := st.named[params[i] := Some(st.next)]);
    assert BindParams(params, i, st) == BindParams(params, i + 1, s3);
    if j == i {
      BindParamsOthers(params, i + 1, s3, params[i]);
    } else {
      BindParamsLast(params, i + 1, s3, j);
    }
  }

  /**
   * The parameter loop of function codegen: each name is bound to the slot
   * of its last occurrence, parameter j's being next+j, and no other name is
   * touched.
   */
  lemma BindParamsSlots(params: seq<string>, i: nat, st: CgState)
    requires i <= |params|
    ensures var r := BindParams(params, i, st);
      && (forall j :: i <= j < |params| && LastOccurrence(params, j) ==>
            Bound(r.named, params[j]) == Some(st.next + (j - i)))
      && (forall y :: y !in params[i..] ==> Bound(r.named, y) == Bound(st.named, y))
  {
    var r := BindParams(params, i, st);
    forall j | i <= j < |params| && LastOccurrence(params, j) ensures Bound(r.named, params[j]) == Some(st.next + (j - i)) {
      BindParamsLast(params, i, st, j);
    }
    forall y | y !in params[i..] ensures Bound(r.named, y) == Bound(st.named, y) {
      BindParamsOthers(params, i, st, y);
    }
  }

  /** The parameter loop stores incoming argument j into the slot of parameter j, after the stores already emitted. */
  lemma {:induction false} BindParamsStores(params: seq<string>, i: nat, st: CgState)
    requires i <= |params|
    ensures var r := BindParams(params, i, st);
      && |r.stores| == |st.stores| + (|params| - i) && r.stores[..|st.stores|] == st.stores
      && (forall j :: i <= j < |params| ==> r.stores[|st.stores| + (j - i)] == Store(st.next + (j - i), Param(j)))
    decreases |params| - i
  {
    if i < |params| {
      var s3 := st.(next := st.next + 1, stores := st.stores + [Store(st.next, Param(i))], named := st.named[params[i] := Some(st.next)]);
      assert BindParams(params, i, st) == BindParams(params, i + 1, s3);
      BindParamsStores(params, i + 1, s3);
      var r := BindParams(params, i + 1, s3);
      assert r.stores[..|st.stores|] == r.stores[..|s3.stores|][..|st.stores|];
      assert r.stores[|st.stores|] == r.stores[..|s3.stores|][|st.stores|];
    }
  }

  /**
   * Function codegen generates the body in a fresh scope: exactly the
   * argument names of the function found are bound, argument j to slot
   * next+j, into which incoming argument j is stored.  The names are distinct
   * because PrototypeAST::codegen numbers a repeated one (Declared).
   */
  lemma EntryScope(p: Prototype, st: CgState)
    requires Declared(st)
    ensures var ps := EntryParams(p, st);
      var s := FunctionEntry(p, st);
      && Distinct(ps)
      && (forall j :: 0 <= j < |ps| ==> Bound(s.named, ps[j]) == Some(st.next + j))
      && (forall y :: y !in ps ==> Bound(s.named, y).None?)
      && |s.stores| == |st.stores| + |ps| && s.stores[..|st.stores|] == st.stores
      && (forall j :: 0 <= j < |ps| ==> s.stores[|st.stores| + j] == Store(st.next + j, Param(j)))
  {
    var s1 := st.(protos := st.protos[p.name := p]);
    var g := GetFn(p.name, s1);
    var ps := g.res.value.params;
    assert ps == EntryParams(p, st);
    BindParamsSlots(ps, 0, g.st.(named := map[]));
    assert forall j :: 0 <= j < |ps| ==> LastOccurrence(ps, j);
    BindParamsStores(g.res.value.params, 0, g.st.(named := map[]));
  }

  /**
   * `def f(x x)`: the first argument is named x and the second x1, and the
   * body sees x in the first slot and x1 in the second.
   */
  lemma RepeatedParameter(x: string, st: CgState)
    requires "f" !in st.functions && Declared(st)
    ensures var s := FunctionEntry(Prototype("f", [x, x], false, 0), st);
      && Bound(s.named, x) == Some(st.next)
      && Bound(s.named, x + "1") == Some(st.next + 1)
  {
    var p := Prototype("f", [x, x], false, 0);
    ArgNamesRepeat(x);
    assert EntryParams(p, st) == [x, x + "1"];
    EntryScope(p, st);
    assert EntryParams(p, st)[1] == x + "1";
  }

  /**
   * FunctionAST::codegen registers the prototype whatever happens, installs a
   * binary operator's precedence even when the body fails, completes the
   * function when the body generates and removes it when it does not.  Every
   * other function of the module is kept as it was, the only ones added are
   * declarations of registered prototypes, and argument names stay distinct.
   */
  lemma GenFunctionEffects(f: FunctionDef, st: CgState, prec: Table)
    ensures var p := f.proto;
      var r := GenFunction(f, st, prec);
      && r.st.protos == st.protos[p.name := p]
      && (p.IsBinaryOp() && |p.name| > 0 ==> r.prec == prec[p.OperatorName() := p.precedence as int])
      && (!p.IsBinaryOp() ==> r.prec == prec)
      && (r.res.Some? ==> r.res == Some(p.name) && p.name in r.st.functions && r.st.functions[p.name].hasBody)
      && (r.res.None? ==> p.name !in r.st.functions)
      && (forall n :: n in st.functions && n != p.name ==> n in r.st.functions && r.st.functions[n] == st.functions[n])
      && (forall n :: n in r.st.functions && n !in st.functions && n != p.name ==>
            n in st.protos && r.st.functions[n] == FnDecl(ArgNames(st.protos[n].args), false))
      && (Declared(st) ==> Declared(r.st))
  {
    var p := f.proto;
    var s0 := FunctionEntry(p, st);
    GenFrame(f.body, s0);
    if Declared(st) {
      var s1 := st.(protos := st.protos[p.name := p]);
      var g := GetFn(p.name, s1);
      assert Declared(g.st);
      assert Declared(s0);
      FrameDeclared(s0, Gen(f.body, s0).st);
      EntryScope(p, st);
    }
  }

  /** There is no redefinition check: a function whose body generates replaces an existing definition of its name. */
  lemma NoRedefinitionCheck(f: FunctionDef, st: CgState, prec: Table)
    requires f.proto.name in st.functions && st.functions[f.proto.name].hasBody
    requires Gen(f.body, FunctionEntry(f.proto, st)).res.Some?
    ensures GenFunction(f, st, prec).res == Some(f.proto.name)
  {
  }
}
