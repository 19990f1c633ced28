/**
 * main, MainLoop and the three Handle* routines of kaleidoscope/toy.cpp
 * (lines 1078-1208) over the running parser and code generator, proved to
 * follow the session functions of Toplevel step by step.
 *
 * `prec` is the precedence table the session is specified against: the live
 * BinopPrecedence also holds the zero entries GetTokPrecedence inserts, which
 * change no precedence.
 */
module Driver {
  import opened Wrappers
  import opened Tokens
  import opened Lexer
  import opened Ast
  import opened Operators
  import opened Grammar
  import opened Parsing
  import opened Generation
  import opened Codegen
  import opened Toplevel

  class Interpreter {
    const parser: Parser
    const cg: CodeGen
    const ops: OperatorTable
    /** The modules handed to TheJIT, oldest first. */
    var jit: seq<map<string, FnDecl>>
    var status: Status
    ghost var prec: Table

    ghost predicate Valid()
      reads this, parser, parser.lexer, cg, ops
    {
      && parser.Valid() && parser.ops == ops && cg.ops == ops
      && WF(parser.State()) && SamePrec(prec, ops.prec)
    }

    ghost function State(): Session
      reads this, parser, parser.lexer, cg, ops
      requires Valid()
    {
      Session(parser.State(), prec, cg.State(), jit, status)
    }

    /** main (lines 1186-1205): the operators installed, the first token primed, the module opened. */
    constructor (input: seq<char>, num: string -> real)
      ensures Valid() && State() == Start(input) && parser.num == num
    {
      var lexer := new Lexer(input);
      var table := new OperatorTable();
      var p := new Parser(lexer, table, num);
      var c := new CodeGen(table);
      parser := p;
      cg := c;
      ops := table;
      jit := [];
      status := Running;
      prec := InitialTable;
      new;
      var _ := parser.GetNextToken();
    }

    /** HandleDefinition (lines 1078-1091). */
    method HandleDefinition()
      requires Valid()
      modifies this, parser, parser.lexer, cg, ops
      ensures Valid() && State() == Toplevel.HandleDefinition(old(State()), parser.num)
    {
      var fnAST := parser.ParseDefinition(prec);
      if fnAST.None? {
        var _ := parser.GetNextToken();
        return;
      }
      ghost var c0, p0 := cg.State(), ops.prec;
      var fnIR := cg.CodegenFunction(fnAST.value);
      GenFunctionTable(fnAST.value, c0, prec, p0);
      prec := GenFunction(fnAST.value, c0, prec).prec;
      if fnIR.Some? {
        jit := jit + [cg.functions];
        cg.InitializeModule();
      }
    }

    /** HandleExtern (lines 1093-1105). */
    method HandleExtern()
      requires Valid()
      modifies this, parser, parser.lexer, cg
      ensures Valid() && State() == Toplevel.HandleExtern(old(State()), parser.num)
    {
      var protoAST := parser.ParseExtern();
      if protoAST.None? {
        var _ := parser.GetNextToken();
        return;
      }
      cg.CodegenProto(protoAST.value);
      cg.AddProto(protoAST.value);
    }

    /** HandleTopLevelExpression (lines 1129-1159). */
    method HandleTopLevelExpression()
      requires Valid()
      modifies this, parser, parser.lexer, cg, ops
      ensures Valid() && State() == Toplevel.HandleTopLevel(old(State()))
    {
      var exprAST := parser.ParseTopLevelExpr(prec);
      if exprAST.None? {
        var _ := parser.GetNextToken();
        return;
      }
      ghost var c0, p0 := cg.State(), ops.prec;
      var exprIR := cg.CodegenFunction(exprAST.value);
      GenFunctionTable(exprAST.value, c0, prec, p0);
      prec := GenFunction(exprAST.value, c0, prec).prec;
      if exprIR.Some? {
        var handle := |jit|;
        jit := jit + [cg.functions];
        cg.InitializeModule();
        if !FindSymbol(jit, AnonSymbol) {
          status := Aborted;
          return;
        }
        jit := jit[..handle];
      }
    }

    /** One pass of MainLoop's switch (lines 1163-1178); EOF ends the loop. */
    method Dispatch()
      requires Valid() && status == Running
      modifies this, parser, parser.lexer, cg, ops
      ensures Valid() && State() == Step(old(State()), parser.num)
    {
      ghost var s := State();
      if parser.curTok == TokEof {
        status := Finished;
      } else if parser.curTok == TokChar(';') {
        var _ := parser.GetNextToken();
      } else if parser.curTok == TokDef {
        assert Step(s, parser.num) == Toplevel.HandleDefinition(s, parser.num);
        HandleDefinition();
      } else if parser.curTok == TokExtern {
        assert Step(s, parser.num) == Toplevel.HandleExtern(s, parser.num);
        HandleExtern();
      } else {
        assert Step(s, parser.num) == Toplevel.HandleTopLevel(s);
        HandleTopLevelExpression();
      }
    }

    /** MainLoop (lines 1161-1180): runs until EOF, or until the process aborts. */
    method MainLoop()
      requires Valid() && status == Running
      modifies this, parser, parser.lexer, cg, ops
      ensures Valid() && State() == Run(old(State()), parser.num)
    {
      ghost var goal := Run(State(), parser.num);
      while true
        invariant Valid() && status == Running
        invariant Run(State(), parser.num) == goal
        decreases Measure(State().p)
      {
        Dispatch();
        if status != Running {
          return;
        }
      }
    }
  }
}
