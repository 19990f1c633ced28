/**
 * The binary-operator precedence table BinopPrecedence (kaleidoscope/toy.cpp,
 * lines 539-551 and 1194-1198).
 */
module Operators {
  import opened Tokens

  /** BinopPrecedence: operator character to precedence. */
  type Table = map<char, int>

  /** The table main installs before the first token is read. */
  const InitialTable: Table := map['=' := 2, '<' := 10, '+' := 20, '-' := 30, '*' := 40]

  /**
   * The value of GetTokPrecedence for token `tok`: -1 for every non-ASCII token
   * (keywords, identifiers, numbers, EOF) and for characters whose entry is
   * absent or not positive, the entry otherwise.
   */
  function Prec(t: Table, tok: Token): (p: int)
    ensures p == -1 || p > 0
    ensures p > 0 <==> IsAsciiTok(tok) && tok.c in t && t[tok.c] > 0
    ensures p > 0 ==> p == t[tok.c]
  {
    if IsAsciiTok(tok) && tok.c in t && t[tok.c] > 0 then t[tok.c] else -1
  }

  /** The side effect of GetTokPrecedence: operator[] inserts a 0 entry for an ASCII character it has not seen. */
  function Touch(t: Table, tok: Token): Table {
    if IsAsciiTok(tok) && tok.c !in t then t[tok.c := 0] else t
  }

  /** `m` gives every token the precedence `t` gives it. */
  ghost predicate SamePrec(t: Table, m: Table) {
    forall tok :: Prec(m, tok) == Prec(t, tok)
  }

  /** The zero entry GetTokPrecedence inserts changes no precedence. */
  lemma TouchSamePrec(t: Table, m: Table, tok: Token)
    requires SamePrec(t, m)
    ensures SamePrec(t, Touch(m, tok))
  {
    forall x ensures Prec(Touch(m, tok), x) == Prec(m, x) {
      if IsAsciiTok(tok) && tok.c !in m && IsAsciiTok(x) && x.c == tok.c {
        assert Prec(Touch(m, tok), x) == -1;
      }
    }
  }

  /** Installing the same entry in two tables that agree on every precedence keeps them in agreement. */
  lemma SetSamePrec(t: Table, m: Table, c: char, v: int)
    requires SamePrec(t, m)
    ensures SamePrec(t[c := v], m[c := v])
  {
    var m', t' := m[c := v], t[c := v];
    forall x ensures Prec(m', x) == Prec(t', x) {
      if !(IsAsciiTok(x) && x.c == c) {
        assert Prec(m', x) == Prec(m, x) && Prec(t', x) == Prec(t, x);
      }
    }
  }

  /** The initial table: '=' binds loosest and '*' tightest; no other character is an operator. */
  lemma InitialPrecedences(c: char)
    ensures Prec(InitialTable, TokChar('=')) == 2
    ensures Prec(InitialTable, TokChar('<')) == 10
    ensures Prec(InitialTable, TokChar('+')) == 20
    ensures Prec(InitialTable, TokChar('-')) == 30
    ensures Prec(InitialTable, TokChar('*')) == 40
    ensures c !in ['=', '<', '+', '-', '*'] ==> Prec(InitialTable, TokChar(c)) == -1
  {
  }

  /** BinopPrecedence, shared by the parser (which reads it) and function codegen (which installs operators). */
  class OperatorTable {
    var prec: Table

    constructor ()
      ensures prec == InitialTable
    {
      prec := InitialTable;
    }
  }
}
