/**
 * Properties of the parser functions: the shapes precedence climbing builds,
 * and which prototypes ParsePrototype accepts.
 */
module GrammarFacts {
  import opened Wrappers
  import opened Tokens
  import opened Ast
  import opened Operators
  import opened Grammar

  /** A name as the lexer produces it for tok_identifier: non-empty, starting with a letter. */
  predicate Named(s: string) {
    |s| > 0 && IsAlpha(s[0])
  }

  /**
   * `e` is `lhs` with zero or more binary operators folded onto it on the left,
   * each binding at least as tightly as `p`.
   */
  predicate FoldedOnto(t: Table, e: Expr, lhs: Expr, p: int) {
    e == lhs || (e.Binary? && p <= Prec(t, TokChar(e.op)) && FoldedOnto(t, e.lhs, lhs, p))
  }

  /** ParsePrimary on a token that starts no primary expression fails and consumes nothing. */
  lemma PrimaryRejects(t: Table, st: PState)
    requires !st.cur.TokIdentifier? && !st.cur.TokNumber? && !st.cur.TokIf?
    requires !st.cur.TokFor? && !st.cur.TokVar? && st.cur != TokChar('(')
    ensures PPrimary(t, st) == PR(None, st)
    ensures !IsPrefixOp(st.cur) ==> PUnary(t, st) == PR(None, st)
  {
  }

  /**
   * A prefix operator binds more tightly than any binary operator: `!a + b`
   * parses as (!a) + b, never as !(a + b).
   */
  lemma PrefixBindsTighter(t: Table, st: PState, a: Expr, s2: PState, b: Expr, s4: PState)
    requires IsPrefixOp(st.cur)
    requires PUnary(t, Advance(st)) == PR(Some(a), s2)
    requires Prec(t, s2.cur) > 0
    requires PUnary(t, Advance(s2)) == PR(Some(b), s4)
    requires Prec(t, s4.cur) < 0
    ensures PExpression(t, st) == PR(Some(Binary(s2.cur.c, Unary(st.cur.c, a), b)), s4)
  {
    var na := Unary(st.cur.c, a);
    assert PUnary(t, st) == PR(Some(na), s2);
    assert POperand(t, Prec(t, s2.cur), Advance(s2)) == PR(Some(b), s4);
    assert PBinOpRHS(t, 0, Binary(s2.cur.c, na, b), s4) == PR(Some(Binary(s2.cur.c, na, b)), s4);
  }

  /**
   * ParseBinOpRHS consumes nothing exactly when the current token binds less
   * tightly than `exprPrec` (a non-operator counts as -1), and then returns
   * `lhs` unchanged.  Any other token is consumed, whether or not its right
   * operand parses.
   */
  lemma BinOpRHSStops(t: Table, exprPrec: nat, lhs: Expr, st: PState)
    ensures var r := PBinOpRHS(t, exprPrec, lhs, st);
      && (Prec(t, st.cur) < exprPrec <==> r.st == st)
      && (Prec(t, st.cur) < exprPrec ==> r.res == Some(lhs))
  {
    var tokPrec := Prec(t, st.cur);
    if tokPrec >= exprPrec {
      assert st.cur != TokEof;
      var o := POperand(t, tokPrec, Advance(st));
      assert Measure(o.st) < Measure(st);
    }
  }

  /**
   * ParseBinOpRHS stops at the first operator binding less tightly than
   * `exprPrec`, and what it returns is `lhs` with the operators it consumed
   * folded onto it, each binding at least as tightly as `exprPrec`.
   */
  lemma {:induction false} BinOpRHSFolds(t: Table, exprPrec: nat, lhs: Expr, st: PState)
    ensures var r := PBinOpRHS(t, exprPrec, lhs, st);
      r.res.Some? ==> Prec(t, r.st.cur) < exprPrec && FoldedOnto(t, r.res.value, lhs, exprPrec)
    decreases Measure(st)
  {
    var tokPrec := Prec(t, st.cur);
    if tokPrec >= exprPrec {
      var o := POperand(t, tokPrec, Advance(st));
      if o.res.Some? {
        var lhs' := Binary(st.cur.c, lhs, o.res.value);
        assert Prec(t, TokChar(lhs'.op)) == tokPrec;
        BinOpRHSFolds(t, exprPrec, lhs', o.st);
        var r := PBinOpRHS(t, exprPrec, lhs', o.st);
        if r.res.Some? {
          FoldedTrans(t, r.res.value, lhs', lhs, exprPrec);
        }
      }
    }
  }

  /** Folding onto a node that is itself `lhs` with one operator folded onto it is folding onto `lhs`. */
  lemma {:induction false} FoldedTrans(t: Table, e: Expr, mid: Expr, lhs: Expr, p: int)
    requires mid.Binary? && mid.lhs == lhs && p <= Prec(t, TokChar(mid.op))
    requires FoldedOnto(t, e, mid, p)
    ensures FoldedOnto(t, e, lhs, p)
  {
    if e != mid {
      FoldedTrans(t, e.lhs, mid, lhs, p);
    }
  }

  /**
   * The right operand of an operator of precedence `tokPrec` ends at an
   * operator binding no more tightly than `tokPrec`: it has absorbed all
   * tighter ones.
   */
  lemma OperandStops(t: Table, tokPrec: nat, st: PState)
    ensures var r := POperand(t, tokPrec, st);
      r.res.Some? ==> Prec(t, r.st.cur) <= tokPrec
  {
    var u := PUnary(t, st);
    if u.res.Some? && tokPrec < Prec(t, u.st.cur) {
      BinOpRHSFolds(t, tokPrec + 1, u.res.value, u.st);
    }
  }

  /**
   * The argument loop of a call: on success the result is a call of `name`
   * whose arguments are those already parsed, then the expression parsed at
   * `st`, then the rest, in source order.
   */
  lemma {:induction false} ArgsInOrder(t: Table, name: string, acc: seq<Expr>, st: PState)
    ensures var r := PArgs(t, name, acc, st);
      r.res.Some? ==>
        && r.res.value.Call? && r.res.value.callee == name
        && |acc| < |r.res.value.args| && r.res.value.args[..|acc|] == acc
        && r.res.value.args[|acc|] == PExpression(t, st).res.value
    decreases Measure(st)
  {
    var a := PExpression(t, st);
    if a.res.Some? && a.st.cur != TokChar(')') && a.st.cur == TokChar(',') {
      var args := acc + [a.res.value];
      ArgsInOrder(t, name, args, Advance(a.st));
      var r := PArgs(t, name, args, Advance(a.st));
      if r.res.Some? {
        PrefixExtends(r.res.value.args, acc, a.res.value);
      }
    }
  }

  /** A sequence that starts with `acc + [x]` starts with `acc`, followed by `x`. */
  lemma PrefixExtends(s: seq<Expr>, acc: seq<Expr>, x: Expr)
    requires |acc| < |s| && s[..|acc| + 1] == acc + [x]
    ensures s[..|acc|] == acc && s[|acc|] == x
  {
    assert s[..|acc|] == s[..|acc| + 1][..|acc|];
    assert s[|acc|] == s[..|acc| + 1][|acc|];
  }

  /**
   * ParseIdentifierExpr: an identifier not followed by '(' is a variable
   * reference; followed by '(' it is a call of that identifier, with no
   * arguments when ')' comes next.
   */
  lemma IdentifierShape(t: Table, st: PState)
    requires st.cur == TokIdentifier
    ensures var r := PIdentifier(t, st);
      var s1 := Advance(st);
      && (s1.cur != TokChar('(') ==> r == PR(Some(Variable(st.lex.ident)), s1))
      && (s1.cur == TokChar('(') && Advance(s1).cur == TokChar(')') ==>
            r == PR(Some(Call(st.lex.ident, [])), Advance(Advance(s1))))
      && (r.res.Some? && s1.cur == TokChar('(') ==> r.res.value.Call? && r.res.value.callee == st.lex.ident)
  {
    var s1 := Advance(st);
    if s1.cur == TokChar('(') && Advance(s1).cur != TokChar(')') {
      ArgsInOrder(t, st.lex.ident, [], Advance(s1));
    }
  }

  /** Every binding name starts with a letter. */
  predicate NamedBindings(vs: seq<Binding>) {
    forall i :: 0 <= i < |vs| ==> Named(vs[i].name)
  }

  /**
   * The binding loop of a var group: on success the result binds the bindings
   * already read, then the identifier at `st`, then the rest, in source order,
   * every name starting with a letter.
   */
  lemma {:induction false} VarListInOrder(t: Table, acc: seq<Binding>, st: PState)
    requires st.cur == TokIdentifier && WF(st)
    ensures var r := PVarList(t, acc, st);
      r.res.Some? ==>
        && r.res.value.Var? && |acc| < |r.res.value.vars| && r.res.value.vars[..|acc|] == acc
        && r.res.value.vars[|acc|].name == st.lex.ident
        && NamedBindings(r.res.value.vars[|acc|..])
    decreases Measure(st), 1
  {
    var i := POptional(t, '=', Advance(st));
    if i.res.Some? {
      var vars := acc + [Binding(st.lex.ident, i.res.value)];
      VarRestInOrder(t, vars, i.st);
      var r := PVarRest(t, vars, i.st);
      if r.res.Some? {
        var vs := r.res.value.vars;
        assert vs[..|acc|] == vs[..|vars|][..|acc|];
        assert vs[|acc|] == vs[..|vars|][|acc|];
        forall k | |acc| <= k < |vs| ensures Named(vs[k].name) {
          if k >= |vars| {
            assert vs[k] == vs[|vars|..][k - |vars|];
          }
        }
      }
    }
  }

  /** The rest of the binding loop: the bindings read so far are kept, and those added are named by identifiers. */
  lemma {:induction false} VarRestInOrder(t: Table, vars: seq<Binding>, st: PState)
    ensures var r := PVarRest(t, vars, st);
      r.res.Some? ==>
        && r.res.value.Var? && |vars| <= |r.res.value.vars| && r.res.value.vars[..|vars|] == vars
        && NamedBindings(r.res.value.vars[|vars|..])
    decreases Measure(st), 0
  {
    if st.cur == TokChar(',') {
      var s := Advance(st);
      if s.cur == TokIdentifier {
        VarListInOrder(t, vars, s);
      }
    }
  }

  /** A var group binds at least one name, each starting with a letter, in source order. */
  lemma VarShape(t: Table, st: PState)
    requires st.cur == TokVar
    ensures var r := PVar(t, st);
      r.res.Some? ==>
        && r.res.value.Var? && |r.res.value.vars| >= 1
        && r.res.value.vars[0].name == Advance(st).lex.ident
        && NamedBindings(r.res.value.vars)
  {
    var s1 := Advance(st);
    if s1.cur == TokIdentifier {
      VarListInOrder(t, [], s1);
    }
  }

  /**
   * An optional clause is absent exactly when CurTok is not its separator, and
   * then nothing is consumed; a for loop with no `, step` gets no step.
   */
  lemma OptionalAbsent(t: Table, sep: char, st: PState)
    ensures var r := POptional(t, sep, st);
      && (r.res == Some(None) <==> st.cur != TokChar(sep))
      && (st.cur != TokChar(sep) ==> r.st == st)
  {
  }

  /** The parameter loop keeps the names already read and adds identifiers only, each starting with a letter. */
  lemma {:induction false} ParamNamesNamed(acc: seq<string>, st: PState)
    requires WF(st)
    ensures var r := PParamNames(acc, st);
      |acc| <= |r.0| && r.0[..|acc|] == acc && forall i :: |acc| <= i < |r.0| ==> Named(r.0[i])
    decreases Measure(st)
  {
    if st.cur == TokIdentifier {
      var acc' := acc + [st.lex.ident];
      ParamNamesNamed(acc', Advance(st));
      var r := PParamNames(acc', Advance(st));
      assert r.0[..|acc|] == r.0[..|acc'|][..|acc|];
      assert r.0[|acc|] == r.0[..|acc'|][|acc|];
    }
  }

  /** The end of a prototype: the parameter names are identifiers, and an operator has as many as its kind says. */
  lemma ProtoArgsShape(name: string, kind: nat, prec: nat, st: PState)
    requires WF(st)
    ensures var r := PProtoArgs(name, kind, prec, st);
      r.res.Some? ==>
        var p := r.res.value;
        && p.name == name && p.isOperator == (kind != 0) && p.precedence == prec
        && (kind != 0 ==> |p.args| == kind)
        && forall i :: 0 <= i < |p.args| ==> Named(p.args[i])
  {
    if st.cur == TokChar('(') {
      ParamNamesNamed([], Advance(st));
    }
  }

  /** A plain prototype is named by its identifier, is no operator and has precedence 30. */
  lemma PlainPrototype(num: string -> real, st: PState)
    requires WF(st) && st.cur == TokIdentifier
    ensures var r := PPrototype(num, st);
      r.res.Some? ==>
        var p := r.res.value;
        && p.name == st.lex.ident && Named(p.name) && !p.isOperator && p.precedence == 30
        && forall i :: 0 <= i < |p.args| ==> Named(p.args[i])
  {
    ProtoArgsShape(st.lex.ident, 0, 30, Advance(st));
  }

  /** `unary c`, for an ASCII token c, is a one-parameter operator named "unary"+c whose operator is c. */
  lemma UnaryPrototype(num: string -> real, st: PState)
    requires st.cur == TokUnary
    ensures var r := PPrototype(num, st);
      r.res.Some? ==>
        var p := r.res.value;
        var c := Advance(st).cur;
        && IsAsciiTok(c) && p.IsUnaryOp() && p.name == "unary" + [c.c] && p.OperatorName() == c.c
        && forall i :: 0 <= i < |p.args| ==> Named(p.args[i])
  {
    var s1 := Advance(st);
    if IsAsciiTok(s1.cur) {
      ProtoArgsShape("unary" + [s1.cur.c], 1, 30, Advance(s1));
    }
  }

  /**
   * `binary c`, for an ASCII token c, is a two-parameter operator named
   * "binary"+c whose operator is c, with a precedence in 1..100.
   */
  lemma BinaryPrototype(num: string -> real, st: PState)
    requires st.cur == TokBinary
    ensures var r := PPrototype(num, st);
      r.res.Some? ==>
        var p := r.res.value;
        var c := Advance(st).cur;
        && IsAsciiTok(c) && p.IsBinaryOp() && p.name == "binary" + [c.c] && p.OperatorName() == c.c
        && 1 <= p.BinaryPrecedence() <= 100
        && forall i :: 0 <= i < |p.args| ==> Named(p.args[i])
  {
    var s1 := Advance(st);
    if IsAsciiTok(s1.cur) {
      var name := "binary" + [s1.cur.c];
      var s2 := Advance(s1);
      if s2.cur == TokNumber {
        var v := num(s2.lex.num);
        if 1.0 <= v <= 100.0 {
          ProtoArgsShape(name, 2, v.Floor, Advance(s2));
        }
      } else {
        ProtoArgsShape(name, 2, 30, s2);
      }
    }
  }

  /**
   * ParsePrototype accepts only an identifier, `unary` or `binary`, and the
   * name of what it accepts starts with a letter.
   */
  lemma PrototypeNamed(num: string -> real, st: PState)
    requires WF(st)
    ensures var r := PPrototype(num, st);
      r.res.Some? ==> (st.cur == TokIdentifier || st.cur == TokUnary || st.cur == TokBinary) && Named(r.res.value.name)
  {
    match st.cur
    case TokIdentifier => PlainPrototype(num, st);
    case TokUnary => UnaryPrototype(num, st);
    case TokBinary => BinaryPrototype(num, st);
    case _ =>
  }

  /** Every function ParseDefinition, ParseExtern or ParseTopLevelExpr produces has a name starting with a letter. */
  lemma TopLevelNamed(t: Table, num: string -> real, st: PState)
    ensures var r := PDefinition(t, num, st); r.res.Some? ==> Named(r.res.value.proto.name)
    ensures var r := PExtern(num, st); r.res.Some? ==> Named(r.res.value.name)
    ensures var r := PTopLevel(t, st); r.res.Some? ==> r.res.value.proto == MainProto && Named(MainProto.name)
  {
    PrototypeNamed(num, Advance(st));
  }

  /** A definition is the prototype after `def` and the expression after the prototype. */
  lemma DefinitionShape(t: Table, num: string -> real, st: PState)
    ensures var r := PDefinition(t, num, st);
      var p := PPrototype(num, Advance(st));
      r.res.Some? <==> p.res.Some? && PExpression(t, p.st).res.Some?
    ensures var r := PDefinition(t, num, st);
      var p := PPrototype(num, Advance(st));
      r.res.Some? ==> r.res.value == FunctionDef(p.res.value, PExpression(t, p.st).res.value)
  {
  }

  /**
   * `a op1 b op2 c` with op1 binding at least as tightly as op2 (and both at
   * least as tightly as `exprPrec`) groups to the left: (a op1 b) op2 c.
   */
  lemma ClimbLeft(t: Table, exprPrec: nat, a: Expr, st: PState, b: Expr, s2: PState, c: Expr, s4: PState)
    requires exprPrec <= Prec(t, s2.cur) <= Prec(t, st.cur)
    requires PUnary(t, Advance(st)) == PR(Some(b), s2)
    requires PUnary(t, Advance(s2)) == PR(Some(c), s4)
    requires Prec(t, s4.cur) < exprPrec
    ensures PBinOpRHS(t, exprPrec, a, st) == PR(Some(Binary(s2.cur.c, Binary(st.cur.c, a, b), c)), s4)
  {
    var ab := Binary(st.cur.c, a, b);
    var abc := Binary(s2.cur.c, ab, c);
    assert POperand(t, Prec(t, st.cur), Advance(st)) == PR(Some(b), s2);
    assert POperand(t, Prec(t, s2.cur), Advance(s2)) == PR(Some(c), s4);
    assert PBinOpRHS(t, exprPrec, abc, s4) == PR(Some(abc), s4);
    assert PBinOpRHS(t, exprPrec, ab, s2) == PR(Some(abc), s4);
  }

  /**
   * `a op1 b op2 c` with op2 binding more tightly than op1 (and op1 at least as
   * tightly as `exprPrec`) groups to the right: a op1 (b op2 c).
   */
  lemma ClimbRight(t: Table, exprPrec: nat, a: Expr, st: PState, b: Expr, s2: PState, c: Expr, s4: PState)
    requires exprPrec <= Prec(t, st.cur) < Prec(t, s2.cur)
    requires PUnary(t, Advance(st)) == PR(Some(b), s2)
    requires PUnary(t, Advance(s2)) == PR(Some(c), s4)
    requires Prec(t, s4.cur) < exprPrec
    ensures PBinOpRHS(t, exprPrec, a, st) == PR(Some(Binary(st.cur.c, a, Binary(s2.cur.c, b, c))), s4)
  {
    var p1 := Prec(t, st.cur);
    var bc := Binary(s2.cur.c, b, c);
    var abc := Binary(st.cur.c, a, bc);
    assert POperand(t, Prec(t, s2.cur), Advance(s2)) == PR(Some(c), s4);
    assert PBinOpRHS(t, p1 + 1, bc, s4) == PR(Some(bc), s4);
    assert PBinOpRHS(t, p1 + 1, b, s2) == PR(Some(bc), s4);
    assert POperand(t, p1, Advance(st)) == PR(Some(bc), s4);
    assert PBinOpRHS(t, exprPrec, abc, s4) == PR(Some(abc), s4);
  }

  /** A binary prototype whose explicit precedence lies outside 1..100 is rejected. */
  lemma BinaryPrecedenceOutOfRange(num: string -> real, st: PState)
    requires st.cur == TokBinary && IsAsciiTok(Advance(st).cur)
    requires var s2 := Advance(Advance(st));
      s2.cur == TokNumber && (num(s2.lex.num) < 1.0 || num(s2.lex.num) > 100.0)
    ensures PPrototype(num, st).res.None?
  {
  }

  /**
   * An accepted binary prototype has the explicit precedence, truncated, when a
   * number follows the operator, and 30 otherwise.
   */
  lemma BinaryPrecedenceValue(num: string -> real, st: PState)
    requires st.cur == TokBinary && PPrototype(num, st).res.Some?
    ensures var s2 := Advance(Advance(st));
      PPrototype(num, st).res.value.precedence == if s2.cur == TokNumber then num(s2.lex.num).Floor else 30
  {
  }

  /**
   * A prototype is accepted exactly when '(' identifiers ')' follow its name
   * (and a `binary` operator's precedence, when one is written) and, for an
   * operator, there are as many identifiers as operands: a plain prototype
   * takes any number of parameters.  `s` is the state at the expected '('.
   */
  lemma PrototypeAccepted(num: string -> real, st: PState, kind: nat, s: PState)
    requires st.cur == TokIdentifier ==> kind == 0 && s == Advance(st)
    requires st.cur == TokUnary ==> kind == 1 && IsAsciiTok(Advance(st).cur) && s == Advance(Advance(st))
    requires st.cur == TokBinary ==>
      && kind == 2 && IsAsciiTok(Advance(st).cur)
      && var s2 := Advance(Advance(st));
        if s2.cur == TokNumber then 1.0 <= num(s2.lex.num) <= 100.0 && s == Advance(s2) else s == s2
    requires st.cur in {TokIdentifier, TokUnary, TokBinary}
    ensures var n := PParamNames([], Advance(s));
      var r := PPrototype(num, st);
      && (r.res.Some? <==> s.cur == TokChar('(') && n.1.cur == TokChar(')') && (kind == 0 || |n.0| == kind))
      && (r.res.Some? ==> r.res.value.args == n.0 && r.st == Advance(n.1))
  {
  }
}
