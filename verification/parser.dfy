/**
 * The parser of kaleidoscope/toy.cpp as it runs: CurTok is a field updated by
 * getNextToken, the lexer and the BinopPrecedence table are objects it
 * changes, and every Parse* routine is a method proved to return what the
 * corresponding Grammar function returns and to leave the state it leaves.
 *
 * `t` is the table the parse is specified against; the live table gains zero
 * entries while parsing but keeps giving every token the precedence `t` gives
 * it (Operators.SamePrec).
 */
module Parsing {
  import opened Wrappers
  import opened Tokens
  import opened Lexer
  import opened Ast
  import opened Operators
  import opened Grammar

  class Parser {
    const lexer: Lexer
    const ops: OperatorTable
    /** strtod on a number lexeme: the NumVal the prototype precedence check reads. */
    const num: string -> real
    var curTok: Token

    ghost predicate Valid()
      reads this, lexer
    {
      lexer.Valid()
    }

    ghost function State(): PState
      reads this, lexer
      requires Valid()
    {
      PState(curTok, lexer.State())
    }

    /** CurTok is a zero-initialised int before main primes it, i.e. the character '\0'. */
    constructor (lexer: Lexer, ops: OperatorTable, num: string -> real)
      requires lexer.Valid()
      ensures Valid() && this.lexer == lexer && this.ops == ops && this.num == num
      ensures curTok == TokChar('\0')
    {
      this.lexer := lexer;
      this.ops := ops;
      this.num := num;
      curTok := TokChar('\0');
    }

    /** getNextToken (lines 296-298). */
    method GetNextToken() returns (tok: Token)
      requires Valid()
      modifies this, lexer
      ensures Valid() && State() == Advance(old(State())) && tok == curTok
    {
      curTok := lexer.GetTok();
      tok := curTok;
    }

    /**
     * GetTokPrecedence (lines 542-551): the precedence of CurTok, inserting a
     * zero entry for an ASCII character the table does not hold yet.
     */
    method GetTokPrecedence(ghost t: Table) returns (p: int)
      requires SamePrec(t, ops.prec)
      modifies ops
      ensures p == Prec(old(ops.prec), curTok) && ops.prec == Touch(old(ops.prec), curTok)
      ensures p == Prec(t, curTok) && SamePrec(t, ops.prec)
    {
      TouchSamePrec(t, ops.prec, curTok);
      if !IsAsciiTok(curTok) {
        return -1;
      }
      var c := curTok.c;
      if c !in ops.prec {
        ops.prec := ops.prec[c := 0];
      }
      var tokPrec := ops.prec[c];
      if tokPrec <= 0 {
        return -1;
      }
      return tokPrec;
    }

    /** ParseExpression (lines 589-595). */
    method ParseExpression(ghost t: Table) returns (r: Option<Expr>)
      requires Valid() && SamePrec(t, ops.prec)
      modifies this, lexer, ops
      ensures Valid() && SamePrec(t, ops.prec)
      ensures r == PExpression(t, old(State())).res && State() == PExpression(t, old(State())).st
      decreases Measure(State()), 3
    {
      var lhs := ParseUnary(t);
      if lhs.None? {
        return None;
      }
      r := ParseBinOpRHS(t, 0, lhs.value);
    }

    /** ParseUnary (lines 328-339). */
    method ParseUnary(ghost t: Table) returns (r: Option<Expr>)
      requires Valid() && SamePrec(t, ops.prec)
      modifies this, lexer, ops
      ensures Valid() && SamePrec(t, ops.prec)
      ensures r == PUnary(t, old(State())).res && State() == PUnary(t, old(State())).st
      decreases Measure(State()), 2
    {
      if !IsPrefixOp(curTok) {
        r := ParsePrimary(t);
        return;
      }
      var opc := curTok.c;
      var _ := GetNextToken();
      var operand := ParseUnary(t);
      if operand.Some? {
        return Some(Unary(opc, operand.value));
      }
      return None;
    }

    /** ParsePrimary (lines 517-535), with ParseNumberExpr (lines 316-320) inline. */
    method ParsePrimary(ghost t: Table) returns (r: Option<Expr>)
      requires Valid() && SamePrec(t, ops.prec)
      modifies this, lexer, ops
      ensures Valid() && SamePrec(t, ops.prec)
      ensures r == PPrimary(t, old(State())).res && State() == PPrimary(t, old(State())).st
      decreases Measure(State()), 1
    {
      ghost var s0 := State();
      match curTok
      case TokIdentifier =>
        r := ParseIdentifierExpr(t);
        assert PPrimary(t, s0) == PIdentifier(t, s0);
      case TokNumber =>
        r := Some(Number(lexer.numStr));
        var _ := GetNextToken();
      case TokIf =>
        r := ParseIfExpr(t);
        assert PPrimary(t, s0) == PIf(t, s0);
      case TokFor =>
        r := ParseForExpr(t);
        assert PPrimary(t, s0) == PFor(t, s0);
      case TokVar =>
        r := ParseVarExpr(t);
        assert PPrimary(t, s0) == PVar(t, s0);
      case TokChar(c) =>
        if c == '(' {
          r := ParseParenExpr(t);
          assert PPrimary(t, s0) == PParen(t, s0);
        } else {
          r := None;
        }
      case _ =>
        r := None;
    }

    /** ParseParenExpr (lines 465-475). */
    method ParseParenExpr(ghost t: Table) returns (r: Option<Expr>)
      requires Valid() && SamePrec(t, ops.prec) && curTok == TokChar('(')
      modifies this, lexer, ops
      ensures Valid() && SamePrec(t, ops.prec)
      ensures r == PParen(t, old(State())).res && State() == PParen(t, old(State())).st
      decreases Measure(State()), 0
    {
      var _ := GetNextToken();
      var v := ParseExpression(t);
      if v.None? {
        return None;
      }
      if curTok != TokChar(')') {
        return None;
      }
      var _ := GetNextToken();
      return v;
    }

    /** ParseIdentifierExpr (lines 480-511): the argument loop pushes onto Args. */
    method ParseIdentifierExpr(ghost t: Table) returns (r: Option<Expr>)
      requires Valid() && SamePrec(t, ops.prec) && curTok == TokIdentifier
      modifies this, lexer, ops
      ensures Valid() && SamePrec(t, ops.prec)
      ensures r == PIdentifier(t, old(State())).res && State() == PIdentifier(t, old(State())).st
      decreases Measure(State()), 0
    {
      ghost var s0 := State();
      var idName := lexer.identifierStr;
      var _ := GetNextToken();
      if curTok != TokChar('(') {
        return Some(Variable(idName));
      }
      var _ := GetNextToken();
      var args: seq<Expr> := [];
      if curTok != TokChar(')') {
        ghost var goal := PArgs(t, idName, [], State());
        assert goal == PIdentifier(t, s0);
        while true
          invariant Valid() && SamePrec(t, ops.prec)
          invariant Measure(State()) < Measure(s0)
          invariant PArgs(t, idName, args, State()) == goal
          decreases Measure(State())
        {
          var arg := ParseExpression(t);
          if arg.None? {
            return None;
          }
          args := args + [arg.value];
          if curTok == TokChar(')') {
            break;
          }
          if curTok != TokChar(',') {
            return None;
          }
          var _ := GetNextToken();
        }
      }
      var _ := GetNextToken();
      return Some(Call(idName, args));
    }

    /** ParseIfExpr (lines 341-365). */
    method ParseIfExpr(ghost t: Table) returns (r: Option<Expr>)
      requires Valid() && SamePrec(t, ops.prec) && curTok == TokIf
      modifies this, lexer, ops
      ensures Valid() && SamePrec(t, ops.prec)
      ensures r == PIf(t, old(State())).res && State() == PIf(t, old(State())).st
      decreases Measure(State()), 0
    {
      var _ := GetNextToken();
      var cond := ParseExpression(t);
      if cond.None? {
        return None;
      }
      if curTok != TokThen {
        return None;
      }
      var _ := GetNextToken();
      var thenE := ParseExpression(t);
      if thenE.None? {
        return None;
      }
      if curTok != TokElse {
        return None;
      }
      var _ := GetNextToken();
      var elseE := ParseExpression(t);
      if elseE.None? {
        return None;
      }
      return Some(If(cond.value, thenE.value, elseE.value));
    }

    /** ParseForExpr (lines 368-413). */
    method ParseForExpr(ghost t: Table) returns (r: Option<Expr>)
      requires Valid() && SamePrec(t, ops.prec) && curTok == TokFor
      modifies this, lexer, ops
      ensures Valid() && SamePrec(t, ops.prec)
      ensures r == PFor(t, old(State())).res && State() == PFor(t, old(State())).st
      decreases Measure(State()), 0
    {
      var _ := GetNextToken();
      if curTok != TokIdentifier {
        return None;
      }
      var idName := lexer.identifierStr;
      var _ := GetNextToken();
      if curTok != TokChar('=') {
        return None;
      }
      var _ := GetNextToken();
      var init := ParseExpression(t);
      if init.None? {
        return None;
      }
      if curTok != TokChar(',') {
        return None;
      }
      var _ := GetNextToken();
      var cond := ParseExpression(t);
      if cond.None? {
        return None;
      }
      var step := ParseOptional(t, ',');
      if step.None? {
        return None;
      }
      var body := ParseInBody(t);
      if body.None? {
        return None;
      }
      return Some(For(idName, init.value, cond.value, step.value, body.value));
    }

    /**
     * The optional `sep expression` clause: the step of a for loop (lines
     * 393-399) and the initializer of a var binding (lines 431-438).
     */
    method ParseOptional(ghost t: Table, sep: char) returns (r: Option<Option<Expr>>)
      requires Valid() && SamePrec(t, ops.prec)
      modifies this, lexer, ops
      ensures Valid() && SamePrec(t, ops.prec)
      ensures r == POptional(t, sep, old(State())).res && State() == POptional(t, sep, old(State())).st
      decreases Measure(State()), 0
    {
      if curTok != TokChar(sep) {
        return Some(None);
      }
      var _ := GetNextToken();
      var e := ParseExpression(t);
      if e.None? {
        return None;
      }
      return Some(e);
    }

    /** `in` and the body, ending a for loop (lines 401-407) and a var group (lines 452-458). */
    method ParseInBody(ghost t: Table) returns (r: Option<Expr>)
      requires Valid() && SamePrec(t, ops.prec)
      modifies this, lexer, ops
      ensures Valid() && SamePrec(t, ops.prec)
      ensures r == PInBody(t, old(State())).res && State() == PInBody(t, old(State())).st
      decreases Measure(State()), 0
    {
      if curTok != TokIn {
        return None;
      }
      var _ := GetNextToken();
      r := ParseExpression(t);
    }

    /** ParseVarExpr (lines 417-461): the binding loop pushes onto VarNames. */
    method ParseVarExpr(ghost t: Table) returns (r: Option<Expr>)
      requires Valid() && SamePrec(t, ops.prec) && curTok == TokVar
      modifies this, lexer, ops
      ensures Valid() && SamePrec(t, ops.prec)
      ensures r == PVar(t, old(State())).res && State() == PVar(t, old(State())).st
      decreases Measure(State()), 0
    {
      ghost var s0 := State();
      var _ := GetNextToken();
      if curTok != TokIdentifier {
        return None;
      }
      var varNames: seq<Binding> := [];
      ghost var goal := PVarList(t, [], State());
      while true
        invariant Valid() && SamePrec(t, ops.prec)
        invariant curTok == TokIdentifier && Measure(State()) < Measure(s0)
        invariant PVarList(t, varNames, State()) == goal
        decreases Measure(State())
      {
        var name := lexer.identifierStr;
        var _ := GetNextToken();
        var init := ParseOptional(t, '=');
        if init.None? {
          return None;
        }
        varNames := varNames + [Binding(name, init.value)];
        assert PVarRest(t, varNames, State()) == goal;
        if curTok != TokChar(',') {
          break;
        }
        var _ := GetNextToken();
        if curTok != TokIdentifier {
          return None;
        }
      }
      var body := ParseInBody(t);
      if body.None? {
        return None;
      }
      return Some(Var(varNames, body.value));
    }

    /**
     * ParseBinOpRHS (lines 555-587): the loop folds operators into LHS while
     * they bind at least as tightly as `exprPrec`.
     */
    method ParseBinOpRHS(ghost t: Table, exprPrec: nat, lhs0: Expr) returns (r: Option<Expr>)
      requires Valid() && SamePrec(t, ops.prec)
      modifies this, lexer, ops
      ensures Valid() && SamePrec(t, ops.prec)
      ensures r == PBinOpRHS(t, exprPrec, lhs0, old(State())).res
      ensures State() == PBinOpRHS(t, exprPrec, lhs0, old(State())).st
      decreases Measure(State()), 1
    {
      ghost var s0 := State();
      ghost var goal := PBinOpRHS(t, exprPrec, lhs0, s0);
      var lhs := lhs0;
      while true
        invariant Valid() && SamePrec(t, ops.prec)
        invariant Measure(State()) <= Measure(s0)
        invariant PBinOpRHS(t, exprPrec, lhs, State()) == goal
        decreases Measure(State())
      {
        var tokPrec := GetTokPrecedence(t);
        if tokPrec < exprPrec {
          return Some(lhs);
        }
        var binOp := curTok.c;
        var _ := GetNextToken();
        var rhs := ParseOperand(t, tokPrec);
        if rhs.None? {
          return None;
        }
        lhs := Binary(binOp, lhs, rhs.value);
      }
    }

    /** The right operand inside the ParseBinOpRHS loop (lines 570-581). */
    method ParseOperand(ghost t: Table, tokPrec: nat) returns (r: Option<Expr>)
      requires Valid() && SamePrec(t, ops.prec)
      modifies this, lexer, ops
      ensures Valid() && SamePrec(t, ops.prec)
      ensures PR(r, State()) == POperand(t, tokPrec, old(State()))
      decreases Measure(State()), 3
    {
      ghost var s0 := State();
      r := ParseUnary(t);
      ghost var u := PR(r, State());
      assert u == PUnary(t, s0);
      if r.None? {
        assert POperand(t, tokPrec, s0) == u;
        return None;
      }
      var nextPrec := GetTokPrecedence(t);
      if tokPrec < nextPrec {
        assert POperand(t, tokPrec, s0) == PBinOpRHS(t, tokPrec + 1, r.value, u.st);
        r := ParseBinOpRHS(t, tokPrec + 1, r.value);
      } else {
        assert POperand(t, tokPrec, s0) == u;
      }
    }

    /** ParsePrototype (lines 600-661): the parameter loop pushes onto ArgNames. */
    method ParsePrototype() returns (r: Option<Prototype>)
      requires Valid()
      modifies this, lexer
      ensures Valid()
      ensures r == PPrototype(num, old(State())).res && State() == PPrototype(num, old(State())).st
    {
      var fnName: string;
      var kind: nat;
      var binaryPrecedence: nat := 30;
      match curTok {
        case TokIdentifier =>
          fnName := lexer.identifierStr;
          kind := 0;
          var _ := GetNextToken();
        case TokUnary =>
          var _ := GetNextToken();
          if !IsAsciiTok(curTok) {
            return None;
          }
          fnName := "unary" + [curTok.c];
          kind := 1;
          var _ := GetNextToken();
        case TokBinary =>
          var _ := GetNextToken();
          if !IsAsciiTok(curTok) {
            return None;
          }
          fnName := "binary" + [curTok.c];
          kind := 2;
          var _ := GetNextToken();
          if curTok == TokNumber {
            var v := num(lexer.numStr);
            if v < 1.0 || v > 100.0 {
              return None;
            }
            binaryPrecedence := v.Floor;
            var _ := GetNextToken();
          }
        case _ =>
          return None;
      }
      r := ParseProtoArgs(fnName, kind, binaryPrecedence);
    }

    /** The parameter list and arity check of ParsePrototype (lines 642-660). */
    method ParseProtoArgs(fnName: string, kind: nat, prec: nat) returns (r: Option<Prototype>)
      requires Valid()
      modifies this, lexer
      ensures Valid()
      ensures r == PProtoArgs(fnName, kind, prec, old(State())).res
      ensures State() == PProtoArgs(fnName, kind, prec, old(State())).st
    {
      if curTok != TokChar('(') {
        return None;
      }
      var argNames: seq<string> := [];
      var tok := GetNextToken();
      ghost var goal := PParamNames([], State());
      while tok == TokIdentifier
        invariant Valid() && tok == curTok
        invariant PParamNames(argNames, State()) == goal
        decreases Measure(State())
      {
        argNames := argNames + [lexer.identifierStr];
        tok := GetNextToken();
      }
      if curTok != TokChar(')') {
        return None;
      }
      var _ := GetNextToken();
      if kind != 0 && |argNames| != kind {
        return None;
      }
      return Some(Prototype(fnName, argNames, kind != 0, prec));
    }

    /** ParseDefinition (lines 664-672). */
    method ParseDefinition(ghost t: Table) returns (r: Option<FunctionDef>)
      requires Valid() && SamePrec(t, ops.prec)
      modifies this, lexer, ops
      ensures Valid() && SamePrec(t, ops.prec)
      ensures r == PDefinition(t, num, old(State())).res && State() == PDefinition(t, num, old(State())).st
    {
      var _ := GetNextToken();
      var proto := ParsePrototype();
      if proto.None? {
        return None;
      }
      var e := ParseExpression(t);
      if e.None? {
        return None;
      }
      return Some(FunctionDef(proto.value, e.value));
    }

    /** ParseExtern (lines 675-678). */
    method ParseExtern() returns (r: Option<Prototype>)
      requires Valid()
      modifies this, lexer
      ensures Valid()
      ensures r == PExtern(num, old(State())).res && State() == PExtern(num, old(State())).st
    {
      var _ := GetNextToken();
      r := ParsePrototype();
    }

    /** ParseTopLevelExpr (lines 681-688). */
    method ParseTopLevelExpr(ghost t: Table) returns (r: Option<FunctionDef>)
      requires Valid() && SamePrec(t, ops.prec)
      modifies this, lexer, ops
      ensures Valid() && SamePrec(t, ops.prec)
      ensures r == PTopLevel(t, old(State())).res && State() == PTopLevel(t, old(State())).st
    {
      var e := ParseExpression(t);
      if e.None? {
        return None;
      }
      return Some(FunctionDef(Prototype("main", [], false, 0), e.value));
    }
  }
}
