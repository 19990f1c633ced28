/**
 * The abstract syntax tree of kaleidoscope/toy.cpp (the ExprAST hierarchy,
 * PrototypeAST and FunctionAST, lines 153-287).  A number literal keeps its
 * lexeme; its double value is not modelled.
 */
module Ast {
  import opened Wrappers

  datatype Expr =
    | Number(lexeme: string)
    | Variable(name: string)
    | Unary(opcode: char, operand: Expr)
    | Binary(op: char, lhs: Expr, rhs: Expr)
    | If(cond: Expr, thenE: Expr, elseE: Expr)
    | For(varName: string, init: Expr, cond: Expr, step: Option<Expr>, body: Expr)
    | Var(vars: seq<Binding>, body: Expr)
    | Call(callee: string, args: seq<Expr>)

  /** One `name (= init)?` of a var group; an absent initializer means 0.0. */
  datatype Binding = Binding(name: string, init: Option<Expr>)

  /**
   * A prototype: its name, parameter names, whether it defines an operator and
   * the precedence it gives a binary operator.
   */
  datatype Prototype = Prototype(name: string, args: seq<string>, isOperator: bool, precedence: nat)
  {
    /** isUnaryOp: an operator prototype with one parameter; never also a binary one. */
    predicate IsUnaryOp()
      ensures IsUnaryOp() ==> isOperator && !IsBinaryOp()
    {
      isOperator && |args| == 1
    }

    /** isBinaryOp: an operator prototype with two parameters. */
    predicate IsBinaryOp() {
      isOperator && |args| == 2
    }

    /** getOperatorName: the operator character, the last one of the name. */
    function OperatorName(): (c: char)
      requires IsUnaryOp() || IsBinaryOp()
      requires |name| > 0
      ensures c in name
    {
      name[|name| - 1]
    }

    /** getBinaryPrecedence. */
    function BinaryPrecedence(): nat {
      precedence
    }
  }

  datatype FunctionDef = FunctionDef(proto: Prototype, body: Expr)

  /** No var group anywhere in `e` binds the same name twice. */
  predicate NoDupVars(e: Expr) {
    match e
    case Number(_) => true
    case Variable(_) => true
    case Unary(_, x) => NoDupVars(x)
    case Binary(_, l, r) => NoDupVars(l) && NoDupVars(r)
    case If(c, a, b) => NoDupVars(c) && NoDupVars(a) && NoDupVars(b)
    case For(_, i, c, s, b) =>
      NoDupVars(i) && NoDupVars(c) && (s.Some? ==> NoDupVars(s.value)) && NoDupVars(b)
    case Var(vs, b) =>
      && (forall i, j :: 0 <= i < j < |vs| ==> vs[i].name != vs[j].name)
      && (forall i :: 0 <= i < |vs| ==> vs[i].init.Some? ==> NoDupVars(vs[i].init.value))
      && NoDupVars(b)
    case Call(_, args) => forall i :: 0 <= i < |args| ==> NoDupVars(args[i])
  }
}
