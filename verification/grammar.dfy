/**
 * The recursive-descent parser of kaleidoscope/toy.cpp (lines 295-689) as
 * functions of the parser state: the current token CurTok and the lexer state
 * behind it.  Every Parse* routine becomes a function returning its result
 * (None for a null pointer) together with the state it leaves.
 *
 * The precedence table is a parameter `t`.  GetTokPrecedence only ever adds
 * zero entries to BinopPrecedence, which change no precedence (see
 * Operators.TouchSamePrec), so a whole parse reads one table.
 */
module Grammar {
  import opened Wrappers
  import opened Tokens
  import opened Lexer
  import opened Ast
  import opened Operators

  /** CurTok, and the lexer state after it. */
  datatype PState = PState(cur: Token, lex: LexState)

  /** A parse result and the state after it. */
  datatype PR<T> = PR(res: Option<T>, st: PState)

  /** Tokens still to come, as an upper bound: the stream length, plus one for CurTok unless it is EOF. */
  function Measure(st: PState): nat {
    |st.lex.rest| + (if st.cur == TokEof then 0 else 1)
  }

  /**
   * The states the parser reaches: an identifier token comes with an
   * IdentifierStr that starts with a letter, and EOF leaves nothing to read.
   */
  predicate WF(st: PState) {
    && (st.cur == TokIdentifier ==> |st.lex.ident| > 0 && IsAlpha(st.lex.ident[0]))
    && (st.cur == TokEof ==> st.lex.rest == [])
  }

  /** getNextToken (lines 296-298): CurTok = gettok(). */
  function Advance(st: PState): (r: PState)
    ensures WF(r)
    ensures Measure(r) <= Measure(st)
    ensures st.cur != TokEof ==> Measure(r) < Measure(st)
  {
    LexIdentWord(st.lex);
    var l := Lex(st.lex);
    PState(l.tok, l.st)
  }

  /** `s` is no further from the end than `st`, and stays well formed. */
  predicate NoGrow(st: PState, s: PState) {
    Measure(s) <= Measure(st) && (WF(st) ==> WF(s))
  }

  /** The tokens ParseUnary takes as prefix operators: every ASCII token but '(' and ','. */
  predicate IsPrefixOp(tok: Token) {
    IsAsciiTok(tok) && tok != TokChar('(') && tok != TokChar(',')
  }

  /** ParseExpression (lines 589-595): a unary expression, then binary operators of any precedence. */
  function PExpression(t: Table, st: PState): (r: PR<Expr>)
    ensures NoGrow(st, r.st)
    ensures r.res.Some? ==> Measure(r.st) < Measure(st)
    decreases Measure(st), 3
  {
    var u := PUnary(t, st);
    if u.res.None? then PR(None, u.st)
    else PBinOpRHS(t, 0, u.res.value, u.st)
  }

  /** ParseUnary (lines 328-339): prefix operators, then a primary expression. */
  function PUnary(t: Table, st: PState): (r: PR<Expr>)
    ensures NoGrow(st, r.st)
    ensures r.res.Some? ==> Measure(r.st) < Measure(st)
    decreases Measure(st), 2
  {
    if !IsPrefixOp(st.cur) then PPrimary(t, st)
    else
      var u := PUnary(t, Advance(st));
      if u.res.None? then PR(None, u.st)
      else PR(Some(Unary(st.cur.c, u.res.value)), u.st)
  }

  /** ParsePrimary (lines 517-535): dispatch on CurTok; any other token is an error and nothing is consumed. */
  function PPrimary(t: Table, st: PState): (r: PR<Expr>)
    ensures NoGrow(st, r.st)
    ensures r.res.Some? ==> Measure(r.st) < Measure(st)
    decreases Measure(st), 1
  {
    match st.cur
    case TokIdentifier => PIdentifier(t, st)
    case TokNumber => PR(Some(Number(st.lex.num)), Advance(st))
    case TokIf => PIf(t, st)
    case TokFor => PFor(t, st)
    case TokVar => PVar(t, st)
    case TokChar(c) => if c == '(' then PParen(t, st) else PR(None, st)
    case _ => PR(None, st)
  }

  /** ParseParenExpr (lines 465-475): the parentheses leave no trace in the tree. */
  function PParen(t: Table, st: PState): (r: PR<Expr>)
    requires st.cur == TokChar('(')
    ensures NoGrow(st, r.st)
    ensures r.res.Some? ==> Measure(r.st) < Measure(st)
    decreases Measure(st), 0
  {
    var e := PExpression(t, Advance(st));
    if e.res.None? then PR(None, e.st)
    else if e.st.cur != TokChar(')') then PR(None, e.st)
    else PR(e.res, Advance(e.st))
  }

  /**
   * ParseIdentifierExpr (lines 480-511): a variable reference unless the
   * identifier is followed by '('; then a call, `()` having no arguments.
   */
  function PIdentifier(t: Table, st: PState): (r: PR<Expr>)
    requires st.cur == TokIdentifier
    ensures NoGrow(st, r.st)
    ensures r.res.Some? ==> Measure(r.st) < Measure(st)
    decreases Measure(st), 0
  {
    var name := st.lex.ident;
    var s1 := Advance(st);
    if s1.cur != TokChar('(') then PR(Some(Variable(name)), s1)
    else
      var s2 := Advance(s1);
      if s2.cur == TokChar(')') then PR(Some(Call(name, [])), Advance(s2))
      else PArgs(t, name, [], s2)
  }

  /**
   * The argument loop of ParseIdentifierExpr (lines 491-505), with the
   * arguments parsed so far in `acc`: one expression, then ')' ends the call
   * and ',' asks for another argument; the arguments keep their source order.
   */
  function PArgs(t: Table, name: string, acc: seq<Expr>, st: PState): (r: PR<Expr>)
    ensures NoGrow(st, r.st)
    ensures r.res.Some? ==> Measure(r.st) < Measure(st)
    decreases Measure(st), 4
  {
    var a := PExpression(t, st);
    if a.res.None? then PR(None, a.st)
    else
      var args := acc + [a.res.value];
      if a.st.cur == TokChar(')') then PR(Some(Call(name, args)), Advance(a.st))
      else if a.st.cur != TokChar(',') then PR(None, a.st)
      else
        PArgs(t, name, args, Advance(a.st))
  }

  /** ParseIfExpr (lines 341-365): `if` expr `then` expr `else` expr. */
  function PIf(t: Table, st: PState): (r: PR<Expr>)
    requires st.cur == TokIf
    ensures NoGrow(st, r.st)
    ensures r.res.Some? ==> Measure(r.st) < Measure(st)
    decreases Measure(st), 0
  {
    var c := PExpression(t, Advance(st));
    if c.res.None? then PR(None, c.st)
    else if c.st.cur != TokThen then PR(None, c.st)
    else
      var a := PExpression(t, Advance(c.st));
      if a.res.None? then PR(None, a.st)
      else if a.st.cur != TokElse then PR(None, a.st)
      else
        var b := PExpression(t, Advance(a.st));
        if b.res.None? then PR(None, b.st)
        else PR(Some(If(c.res.value, a.res.value, b.res.value)), b.st)
  }

  /**
   * An optional clause introduced by the character `sep`: nothing (and nothing
   * consumed) unless CurTok is `sep`, else `sep` and an expression.  This is the
   * step of a for loop (lines 393-399) and the initializer of a var binding
   * (lines 431-438).
   */
  function POptional(t: Table, sep: char, st: PState): (r: PR<Option<Expr>>)
    ensures NoGrow(st, r.st)
    decreases Measure(st), 0
  {
    if st.cur != TokChar(sep) then PR(Some(None), st)
    else
      var e := PExpression(t, Advance(st));
      if e.res.None? then PR(None, e.st)
      else PR(Some(Some(e.res.value)), e.st)
  }

  /** `in` followed by the body expression, closing a for loop (lines 401-407) and a var group (lines 452-458). */
  function PInBody(t: Table, st: PState): (r: PR<Expr>)
    ensures NoGrow(st, r.st)
    ensures r.res.Some? ==> Measure(r.st) < Measure(st)
    decreases Measure(st), 0
  {
    if st.cur != TokIn then PR(None, st)
    else PExpression(t, Advance(st))
  }

  /**
   * ParseForExpr (lines 368-413): `for` id `=` expr `,` expr (`,` expr)? `in`
   * expr.  The step is present exactly when a third comma-separated part follows
   * the condition.
   */
  function PFor(t: Table, st: PState): (r: PR<Expr>)
    requires st.cur == TokFor
    ensures NoGrow(st, r.st)
    ensures r.res.Some? ==> Measure(r.st) < Measure(st)
    decreases Measure(st), 0
  {
    var s1 := Advance(st);
    if s1.cur != TokIdentifier then PR(None, s1)
    else
      var name := s1.lex.ident;
      var s2 := Advance(s1);
      if s2.cur != TokChar('=') then PR(None, s2)
      else
        var i := PExpression(t, Advance(s2));
        if i.res.None? then PR(None, i.st)
        else if i.st.cur != TokChar(',') then PR(None, i.st)
        else
          var c := PExpression(t, Advance(i.st));
          if c.res.None? then PR(None, c.st)
          else
            var s := POptional(t, ',', c.st);
            if s.res.None? then PR(None, s.st)
            else
              var b := PInBody(t, s.st);
              if b.res.None? then PR(None, b.st)
              else PR(Some(For(name, i.res.value, c.res.value, s.res.value, b.res.value)), b.st)
  }

  /** ParseVarExpr (lines 417-461): `var` needs at least one identifier before the binding list. */
  function PVar(t: Table, st: PState): (r: PR<Expr>)
    requires st.cur == TokVar
    ensures NoGrow(st, r.st)
    ensures r.res.Some? ==> Measure(r.st) < Measure(st)
    decreases Measure(st), 0
  {
    var s1 := Advance(st);
    if s1.cur != TokIdentifier then PR(None, s1)
    else PVarList(t, [], s1)
  }

  /**
   * The binding loop of ParseVarExpr (lines 426-450), with the bindings read so
   * far in `acc`: a name and its optional initializer; bindings keep their
   * source order.
   */
  function PVarList(t: Table, acc: seq<Binding>, st: PState): (r: PR<Expr>)
    requires st.cur == TokIdentifier
    ensures NoGrow(st, r.st)
    ensures r.res.Some? ==> Measure(r.st) < Measure(st)
    decreases Measure(st), 4
  {
    var i := POptional(t, '=', Advance(st));
    if i.res.None? then PR(None, i.st)
    else
      var vars := acc + [Binding(st.lex.ident, i.res.value)];
      PVarRest(t, vars, i.st)
  }

  /**
   * The end of one iteration of the binding loop (lines 443-450): ',' and
   * another identifier continue the list, anything else ends it and the
   * body follows.
   */
  function PVarRest(t: Table, vars: seq<Binding>, st: PState): (r: PR<Expr>)
    ensures NoGrow(st, r.st)
    ensures r.res.Some? ==> Measure(r.st) < Measure(st)
    decreases Measure(st), 4
  {
    if st.cur != TokChar(',') then
      var b := PInBody(t, st);
      if b.res.None? then PR(None, b.st)
      else PR(Some(Var(vars, b.res.value)), b.st)
    else
      var s := Advance(st);
      if s.cur != TokIdentifier then PR(None, s)
      else PVarList(t, vars, s)
  }

  /**
   * ParseBinOpRHS (lines 555-587), one iteration of its loop per call.  While
   * CurTok is an operator binding at least as tightly as `exprPrec`, consume it
   * and its right operand and fold both into `lhs`.
   */
  function PBinOpRHS(t: Table, exprPrec: nat, lhs: Expr, st: PState): (r: PR<Expr>)
    ensures NoGrow(st, r.st)
    decreases Measure(st), 1
  {
    var tokPrec := Prec(t, st.cur);
    if tokPrec < exprPrec then PR(Some(lhs), st)
    else
      var o := POperand(t, tokPrec, Advance(st));
      if o.res.None? then PR(None, o.st)
      else PBinOpRHS(t, exprPrec, Binary(st.cur.c, lhs, o.res.value), o.st)
  }

  /**
   * The right operand of an operator of precedence `tokPrec` (lines 570-581):
   * a unary expression which, when the next operator binds more tightly,
   * first absorbs every operator binding more tightly than `tokPrec`.
   */
  function POperand(t: Table, tokPrec: nat, st: PState): (r: PR<Expr>)
    ensures NoGrow(st, r.st)
    ensures r.res.Some? ==> Measure(r.st) < Measure(st)
    decreases Measure(st), 3
  {
    var u := PUnary(t, st);
    if u.res.None? then PR(None, u.st)
    else if tokPrec < Prec(t, u.st.cur) then PBinOpRHS(t, tokPrec + 1, u.res.value, u.st)
    else u
  }

  /** The parameter loop of ParsePrototype (lines 646-648): identifiers up to the first other token. */
  function PParamNames(acc: seq<string>, st: PState): (r: (seq<string>, PState))
    ensures NoGrow(st, r.1)
    ensures r.1.cur != TokIdentifier
    ensures st.cur != TokIdentifier ==> r == (acc, st)
    decreases Measure(st)
  {
    if st.cur != TokIdentifier then (acc, st)
    else
      PParamNames(acc + [st.lex.ident], Advance(st))
  }

  /**
   * The end of ParsePrototype (lines 642-660): '(' parameter names ')', then the
   * arity check: an operator of kind 1 (unary) or 2 (binary) must have exactly
   * that many parameters, a plain prototype (kind 0) any number.
   */
  function PProtoArgs(name: string, kind: nat, prec: nat, st: PState): (r: PR<Prototype>)
    ensures NoGrow(st, r.st)
    ensures r.res.Some? ==> Measure(r.st) < Measure(st)
  {
    if st.cur != TokChar('(') then PR(None, st)
    else
      var n := PParamNames([], Advance(st));
      if n.1.cur != TokChar(')') then PR(None, n.1)
      else if kind != 0 && |n.0| != kind then PR(None, Advance(n.1))
      else PR(Some(Prototype(name, n.0, kind != 0, prec)), Advance(n.1))
  }

  /**
   * ParsePrototype (lines 600-661).  `num` is the conversion strtod performs on
   * a number lexeme.  A plain prototype is named by its identifier; `unary c`
   * is named "unary"+c and `binary c` "binary"+c, for an ASCII token c.  A
   * binary operator's precedence is 30 unless a number follows, which must lie
   * in 1..100 and is truncated.
   */
  function PPrototype(num: string -> real, st: PState): (r: PR<Prototype>)
    ensures NoGrow(st, r.st)
    ensures r.res.Some? ==> Measure(r.st) < Measure(st)
  {
    match st.cur
    case TokIdentifier => PProtoArgs(st.lex.ident, 0, 30, Advance(st))
    case TokUnary =>
      var s1 := Advance(st);
      if !IsAsciiTok(s1.cur) then PR(None, s1)
      else PProtoArgs("unary" + [s1.cur.c], 1, 30, Advance(s1))
    case TokBinary =>
      var s1 := Advance(st);
      if !IsAsciiTok(s1.cur) then PR(None, s1)
      else
        var name := "binary" + [s1.cur.c];
        var s2 := Advance(s1);
        if s2.cur == TokNumber then
          var v := num(s2.lex.num);
          if v < 1.0 || v > 100.0 then PR(None, s2)
          else PProtoArgs(name, 2, v.Floor, Advance(s2))
        else PProtoArgs(name, 2, 30, s2)
    case _ => PR(None, st)
  }

  /** ParseDefinition (lines 664-672): `def`, a prototype, then the body. */
  function PDefinition(t: Table, num: string -> real, st: PState): (r: PR<FunctionDef>)
    ensures NoGrow(st, r.st)
    ensures r.res.Some? ==> Measure(r.st) < Measure(st)
  {
    var p := PPrototype(num, Advance(st));
    if p.res.None? then PR(None, p.st)
    else
      var e := PExpression(t, p.st);
      if e.res.None? then PR(None, e.st)
      else PR(Some(FunctionDef(p.res.value, e.res.value)), e.st)
  }

  /** ParseExtern (lines 675-678): `extern` and a prototype. */
  function PExtern(num: string -> real, st: PState): (r: PR<Prototype>)
    ensures NoGrow(st, r.st)
    ensures r.res.Some? ==> Measure(r.st) < Measure(st)
  {
    PPrototype(num, Advance(st))
  }

  /** The prototype every top-level expression is wrapped in (line 684): "main", no parameters, precedence 0. */
  const MainProto := Prototype("main", [], false, 0)

  /** ParseTopLevelExpr (lines 681-688): an expression wrapped in a function named "main". */
  function PTopLevel(t: Table, st: PState): (r: PR<FunctionDef>)
    ensures NoGrow(st, r.st)
    ensures r.res.Some? ==> Measure(r.st) < Measure(st)
  {
    var e := PExpression(t, st);
    if e.res.None? then PR(None, e.st)
    else PR(Some(FunctionDef(MainProto, e.res.value)), e.st)
  }
}
