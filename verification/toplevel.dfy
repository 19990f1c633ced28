/**
 * The driver of kaleidoscope/toy.cpp (lines 1078-1208) as functions of the
 * whole session: MainLoop dispatches on CurTok, each handler parses one
 * top-level item and generates code for it, and a finished module goes to the
 * JIT, which is modelled as the sequence of modules added to it.  A handler
 * whose parse fails skips one token.
 */
module Toplevel {
  import opened Wrappers
  import opened Tokens
  import opened Lexer
  import opened Ast
  import opened Operators
  import opened Grammar
  import opened GrammarFacts
  import opened Generation
  import opened GenerationFacts
  import opened Naming

  /** Whether MainLoop is still reading, has returned at EOF, or the process aborted on the failed assert of line 1144. */
  datatype Status = Running | Finished | Aborted

  /**
   * The global state of the program: the parser, BinopPrecedence, the code
   * generator's tables, the modules handed to the JIT and the status.
   */
  datatype Session = Session(p: PState, prec: Table, cg: CgState, jit: seq<map<string, FnDecl>>, status: Status)

  /** The code generator's tables before anything is read. */
  const EmptyTables := CgState(map[], map[], map[], 0, [])

  /** The symbol HandleTopLevelExpression asks the JIT for (line 1143). */
  const AnonSymbol := "__anon_expr"

  /**
   * main (lines 1186-1205): the standard operators installed, the first token
   * read (CurTok starts as '\0', LastChar as ' '), an empty module.
   */
  function Start(input: seq<char>): (s: Session)
    ensures WF(s.p) && s.status == Running && s.prec == InitialTable
    ensures s.cg == EmptyTables && s.jit == []
    ensures s.p == Advance(PState(TokChar('\0'), LexState([' '] + input, "", "")))
  {
    Session(Advance(PState(TokChar('\0'), LexState([' '] + input, "", ""))), InitialTable, EmptyTables, [], Running)
  }

  /** InitializeModuleAndPassManager (lines 1057-1075): TheModule replaced by an empty module. */
  function NewModule(cg: CgState): (r: CgState)
    ensures r.functions == map[]
    ensures r.named == cg.named && r.protos == cg.protos && r.next == cg.next && r.stores == cg.stores
  {
    cg.(functions := map[])
  }

  /** findSymbol: some module the JIT holds defines `name` with a body. */
  predicate FindSymbol(jit: seq<map<string, FnDecl>>, name: string) {
    exists i :: 0 <= i < |jit| && name in jit[i] && jit[i][name].hasBody
  }

  /**
   * HandleDefinition (lines 1078-1091): a definition parsed and generated; a
   * function that generates goes to the JIT in its module and a new module is
   * opened.  A parse error skips one token.
   */
  function HandleDefinition(s: Session, num: string -> real): (r: Session)
    ensures WF(s.p) ==> WF(r.p)
    ensures WF(s.p) && s.p.cur != TokEof ==> Measure(r.p) < Measure(s.p)
    ensures r.status == s.status
  {
    var d := PDefinition(s.prec, num, s.p);
    if d.res.None? then s.(p := Advance(d.st))
    else
      var g := GenFunction(d.res.value, s.cg, s.prec);
      if g.res.None? then s.(p := d.st, prec := g.prec, cg := g.st)
      else s.(p := d.st, prec := g.prec, cg := NewModule(g.st), jit := s.jit + [g.st.functions])
  }

  /**
   * HandleExtern (lines 1093-1105): the prototype declared in the module and
   * recorded in FunctionProtos.  A parse error skips one token.
   */
  function HandleExtern(s: Session, num: string -> real): (r: Session)
    ensures WF(s.p) ==> WF(r.p)
    ensures WF(s.p) && s.p.cur != TokEof ==> Measure(r.p) < Measure(s.p)
    ensures r.status == s.status && r.prec == s.prec && r.jit == s.jit
  {
    var x := PExtern(num, s.p);
    if x.res.None? then s.(p := Advance(x.st))
    else
      var proto := x.res.value;
      var cg := GenProto(proto, s.cg);
      s.(p := x.st, cg := cg.(protos := cg.protos[proto.name := proto]))
  }

  /**
   * HandleTopLevelExpression (lines 1129-1159): the expression generated as
   * the function "main", its module handed to the JIT and a new module opened,
   * then AnonSymbol looked up.  When the lookup fails the process aborts;
   * otherwise the module is removed from the JIT again.  A parse error skips
   * one token.
   */
  function HandleTopLevel(s: Session): (r: Session)
    ensures WF(s.p) ==> WF(r.p)
    ensures WF(s.p) && s.p.cur != TokEof ==> Measure(r.p) < Measure(s.p)
    ensures r.status == s.status || r.status == Aborted
  {
    var x := PTopLevel(s.prec, s.p);
    if x.res.None? then s.(p := Advance(x.st))
    else
      var g := GenFunction(x.res.value, s.cg, s.prec);
      if g.res.None? then s.(p := x.st, prec := g.prec, cg := g.st)
      else
        var jit := s.jit + [g.st.functions];
        if FindSymbol(jit, AnonSymbol) then s.(p := x.st, prec := g.prec, cg := NewModule(g.st))
        else s.(p := x.st, prec := g.prec, cg := NewModule(g.st), jit := jit, status := Aborted)
  }

  /** One iteration of MainLoop (lines 1161-1180). */
  function Step(s: Session, num: string -> real): (r: Session)
    requires s.status == Running
    ensures WF(s.p) ==> WF(r.p)
    ensures r.status == Finished <==> s.p.cur == TokEof
    ensures r.status == Finished ==> r.p == s.p
    ensures WF(s.p) && r.status != Finished ==> Measure(r.p) < Measure(s.p)
  {
    if s.p.cur == TokEof then s.(status := Finished)
    else if s.p.cur == TokChar(';') then s.(p := Advance(s.p))
    else if s.p.cur == TokDef then HandleDefinition(s, num)
    else if s.p.cur == TokExtern then HandleExtern(s, num)
    else HandleTopLevel(s)
  }

  /** MainLoop run to the end: it stops only at EOF or when the process aborts. */
  function Run(s: Session, num: string -> real): (r: Session)
    requires WF(s.p)
    ensures r.status != Running
    ensures s.status == Running && r.status == Finished ==> r.p.cur == TokEof
    ensures s.status != Running ==> r == s
    decreases Measure(s.p), if s.status == Running then 1 else 0
  {
    if s.status != Running then s else Run(Step(s, num), num)
  }

  /** Every name in the module, in FunctionProtos and in the JIT starts with a letter. */
  predicate AllNamed(s: Session) {
    && (forall n :: n in s.cg.functions ==> Named(n))
    && (forall n :: n in s.cg.protos ==> Named(n))
    && (forall i, n :: 0 <= i < |s.jit| && n in s.jit[i] ==> Named(n))
  }

  /** Error recovery: an item whose parse fails changes nothing but the input, one token past where the parser stopped. */
  lemma ParseErrorSkipsOne(s: Session, num: string -> real)
    requires s.status == Running
    ensures s.p.cur == TokDef && PDefinition(s.prec, num, s.p).res.None? ==>
      Step(s, num) == s.(p := Advance(PDefinition(s.prec, num, s.p).st))
    ensures s.p.cur == TokExtern && PExtern(num, s.p).res.None? ==>
      Step(s, num) == s.(p := Advance(PExtern(num, s.p).st))
    ensures s.p.cur !in {TokEof, TokChar(';'), TokDef, TokExtern} && PTopLevel(s.prec, s.p).res.None? ==>
      Step(s, num) == s.(p := Advance(PTopLevel(s.prec, s.p).st))
  {
  }

  /** The function codegen result and tables do not depend on BinopPrecedence, and agreeing tables stay in agreement. */
  lemma GenFunctionTable(f: FunctionDef, st: CgState, t: Table, m: Table)
    requires SamePrec(t, m)
    ensures GenFunction(f, st, t).res == GenFunction(f, st, m).res
    ensures GenFunction(f, st, t).st == GenFunction(f, st, m).st
    ensures SamePrec(GenFunction(f, st, t).prec, GenFunction(f, st, m).prec)
  {
    var p := f.proto;
    if p.IsBinaryOp() && |p.name| > 0 {
      SetSamePrec(t, m, p.OperatorName(), p.BinaryPrecedence() as int);
    }
  }

  /** HandleDefinition keeps every name starting with a letter. */
  lemma DefinitionNamed(s: Session, num: string -> real)
    requires AllNamed(s)
    ensures AllNamed(HandleDefinition(s, num))
  {
    var d := PDefinition(s.prec, num, s.p);
    if d.res.Some? {
      TopLevelNamed(s.prec, num, s.p);
      GenFunctionEffects(d.res.value, s.cg, s.prec);
    }
  }

  /** HandleExtern keeps every name starting with a letter. */
  lemma ExternNamed(s: Session, num: string -> real)
    requires AllNamed(s)
    ensures AllNamed(HandleExtern(s, num))
  {
    TopLevelNamed(s.prec, num, s.p);
  }

  /** HandleTopLevelExpression keeps every name starting with a letter. */
  lemma TopLevelExprNamed(s: Session, num: string -> real)
    requires AllNamed(s)
    ensures AllNamed(HandleTopLevel(s))
  {
    var x := PTopLevel(s.prec, s.p);
    if x.res.Some? {
      TopLevelNamed(s.prec, num, s.p);
      GenFunctionEffects(x.res.value, s.cg, s.prec);
    }
  }

  /** Every step keeps every registered, declared, defined and jitted name starting with a letter. */
  lemma StepNamed(s: Session, num: string -> real)
    requires s.status == Running && AllNamed(s)
    ensures AllNamed(Step(s, num))
  {
    if s.p.cur == TokDef {
      DefinitionNamed(s, num);
    } else if s.p.cur == TokExtern {
      ExternNamed(s, num);
    } else if s.p.cur != TokEof && s.p.cur != TokChar(';') {
      TopLevelExprNamed(s, num);
    }
  }

  /** A whole run keeps every name starting with a letter. */
  lemma {:induction false} RunNamed(s: Session, num: string -> real)
    requires WF(s.p) && AllNamed(s)
    ensures AllNamed(Run(s, num))
    decreases Measure(s.p), if s.status == Running then 1 else 0
  {
    if s.status == Running {
      StepNamed(s, num);
      RunNamed(Step(s, num), num);
    }
  }

  /** Every step keeps the argument names of each function of the module distinct. */
  lemma StepDeclared(s: Session, num: string -> real)
    requires s.status == Running && Declared(s.cg)
    ensures Declared(Step(s, num).cg)
  {
    if s.p.cur == TokDef {
      var d := PDefinition(s.prec, num, s.p);
      if d.res.Some? {
        GenFunctionEffects(d.res.value, s.cg, s.prec);
      }
    } else if s.p.cur == TokExtern {
      var x := PExtern(num, s.p);
      if x.res.Some? && x.res.value.name !in s.cg.functions {
        assert Distinct(ArgNames(x.res.value.args));
      }
    } else if s.p.cur != TokEof && s.p.cur != TokChar(';') {
      var x := PTopLevel(s.prec, s.p);
      if x.res.Some? {
        GenFunctionEffects(x.res.value, s.cg, s.prec);
      }
    }
  }

  /**
   * A whole run keeps the argument names of each function distinct, so every
   * function body is generated in the scope GenerationFacts.EntryScope
   * describes; the run from Start begins with an empty module.
   */
  lemma {:induction false} RunDeclared(s: Session, num: string -> real)
    requires WF(s.p) && Declared(s.cg)
    ensures Declared(Run(s, num).cg)
    decreases Measure(s.p), if s.status == Running then 1 else 0
  {
    if s.status == Running {
      StepDeclared(s, num);
      RunDeclared(Step(s, num), num);
    }
  }

  /**
   * BinopPrecedence changes only when a definition of a binary operator
   * parses: its operator gets the definition's precedence, whether or not the
   * body generates, and every other entry is kept.
   */
  lemma StepPrecedence(s: Session, num: string -> real)
    requires s.status == Running
    ensures s.p.cur != TokDef ==> Step(s, num).prec == s.prec
    ensures s.p.cur == TokDef ==>
      var d := PDefinition(s.prec, num, s.p);
      Step(s, num).prec ==
        if d.res.Some? && d.res.value.proto.IsBinaryOp() && |d.res.value.proto.name| > 0
        then s.prec[d.res.value.proto.OperatorName() := d.res.value.proto.precedence as int]
        else s.prec
  {
    if s.p.cur == TokDef {
      var d := PDefinition(s.prec, num, s.p);
      if d.res.Some? {
        GenFunctionEffects(d.res.value, s.cg, s.prec);
      }
    } else if s.p.cur != TokEof && s.p.cur != TokChar(';') && s.p.cur != TokExtern {
      var x := PTopLevel(s.prec, s.p);
      if x.res.Some? {
        GenFunctionEffects(x.res.value, s.cg, s.prec);
      }
    }
  }

  /** The JIT never holds AnonSymbol: it starts with '_', and every name it holds starts with a letter. */
  lemma AnonNeverFound(jit: seq<map<string, FnDecl>>)
    requires forall i, n :: 0 <= i < |jit| && n in jit[i] ==> Named(n)
    ensures !FindSymbol(jit, AnonSymbol)
  {
    assert !Named(AnonSymbol);
  }

  /**
   * A top-level expression aborts the process exactly when it parses and
   * generates: the function is named "main", so the lookup of AnonSymbol fails.
   */
  lemma TopLevelAborts(s: Session, num: string -> real)
    requires s.status == Running && AllNamed(s)
    requires s.p.cur !in {TokEof, TokChar(';'), TokDef, TokExtern}
    ensures var x := PTopLevel(s.prec, s.p);
      Step(s, num).status == Aborted <==>
        x.res.Some? && GenFunction(x.res.value, s.cg, s.prec).res.Some?
  {
    var x := PTopLevel(s.prec, s.p);
    if x.res.Some? {
      var g := GenFunction(x.res.value, s.cg, s.prec);
      if g.res.Some? {
        StepNamed(s, num);
        TopLevelNamed(s.prec, num, s.p);
        GenFunctionEffects(x.res.value, s.cg, s.prec);
        var jit := s.jit + [g.st.functions];
        forall i, n | 0 <= i < |jit| && n in jit[i] ensures Named(n) {
          if i < |s.jit| {
            assert jit[i] == s.jit[i];
          }
        }
        AnonNeverFound(jit);
      }
    }
  }

  /**
   * A definition that generates is handed to the JIT in a module of its own,
   * the next item starts in an empty module, and the function stays callable
   * there as a declaration found through FunctionProtos.
   */
  lemma DefinitionJitted(s: Session, num: string -> real)
    requires s.status == Running && s.p.cur == TokDef
    requires var d := PDefinition(s.prec, num, s.p);
      d.res.Some? && GenFunction(d.res.value, s.cg, s.prec).res.Some?
    ensures var p := PDefinition(s.prec, num, s.p).res.value.proto;
      var r := Step(s, num);
      && |r.jit| == |s.jit| + 1 && r.jit[..|s.jit|] == s.jit
      && p.name in r.jit[|s.jit|] && r.jit[|s.jit|][p.name].hasBody
      && r.cg.functions == map[]
      && GetFn(p.name, r.cg).res == Some(FnDecl(ArgNames(p.args), false))
  {
    var d := PDefinition(s.prec, num, s.p);
    GenFunctionEffects(d.res.value, s.cg, s.prec);
  }

  /**
   * There is no redefinition check across modules either: a definition of a
   * name that a module in the JIT already defines is generated and handed to
   * the JIT like any other, so the JIT then holds two modules defining it.
   */
  lemma RedefinitionJitted(s: Session, num: string -> real)
    requires s.status == Running && s.p.cur == TokDef
    requires var d := PDefinition(s.prec, num, s.p);
      && d.res.Some? && FindSymbol(s.jit, d.res.value.proto.name)
      && Gen(d.res.value.body, FunctionEntry(d.res.value.proto, s.cg)).res.Some?
    ensures var p := PDefinition(s.prec, num, s.p).res.value.proto;
      var r := Step(s, num);
      && |r.jit| == |s.jit| + 1 && r.jit[..|s.jit|] == s.jit
      && FindSymbol(r.jit[..|s.jit|], p.name)
      && p.name in r.jit[|s.jit|] && r.jit[|s.jit|][p.name].hasBody
  {
    var d := PDefinition(s.prec, num, s.p);
    assert GenFunction(d.res.value, s.cg, s.prec).res.Some?;
    DefinitionJitted(s, num);
  }

  /**
   * `def binary c p ...` installs c with precedence p as soon as it is
   * generated, whether or not its body generates: in the session after the
   * definition c is a binary operator of precedence p, and by StepPrecedence
   * only a later definition of the same operator changes that.
   */
  lemma DefinitionInstallsOperator(s: Session, num: string -> real)
    requires s.status == Running && s.p.cur == TokDef && Advance(s.p).cur == TokBinary
    requires PDefinition(s.prec, num, s.p).res.Some?
    ensures var p := PDefinition(s.prec, num, s.p).res.value.proto;
      var c := Advance(Advance(s.p)).cur;
      IsAsciiTok(c) && Prec(Step(s, num).prec, c) == p.precedence > 0
  {
    var d := PDefinition(s.prec, num, s.p);
    DefinitionShape(s.prec, num, s.p);
    BinaryPrototype(num, Advance(s.p));
    GenFunctionEffects(d.res.value, s.cg, s.prec);
  }
}
