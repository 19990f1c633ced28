/**
 * The lexer of kaleidoscope/toy.cpp (gettok, lines 89-151).
 *
 * The character stream read by getchar is an input sequence with a cursor.
 * What the lexer has yet to look at is its lookahead character LastChar
 * followed by the unread input; `LexState.rest` is that stream (empty once
 * LastChar is EOF).  IdentifierStr and the number lexeme (standing for NumVal,
 * whose floating-point value is not modelled) are the other globals gettok writes.
 */
module Lexer {
  import opened Tokens

  /** The stream still to be lexed, and the two globals gettok writes. */
  datatype LexState = LexState(rest: seq<char>, ident: string, num: string)

  /** One token and the lexer state after it. */
  datatype Lexed = Lexed(tok: Token, st: LexState)

  /** The stream after the leading whitespace (the isspace loop). */
  function SkipSpaces(s: seq<char>): (r: seq<char>)
    ensures |r| <= |s|
    ensures r == [] || !IsSpace(r[0])
    ensures forall k :: 0 <= k < |s| - |r| ==> IsSpace(s[k])
  {
    if s != [] && IsSpace(s[0]) then SkipSpaces(s[1..]) else s
  }

  /** Length of the longest prefix of `s` whose characters satisfy isalnum. */
  function AlnumRun(s: seq<char>): (n: nat)
    ensures n <= |s|
    ensures forall k :: 0 <= k < n ==> IsAlnum(s[k])
    ensures n == |s| || !IsAlnum(s[n])
  {
    if s != [] && IsAlnum(s[0]) then 1 + AlnumRun(s[1..]) else 0
  }

  /** Length of the longest prefix of `s` made of digits and '.'. */
  function NumRun(s: seq<char>): (n: nat)
    ensures n <= |s|
    ensures forall k :: 0 <= k < n ==> IsNumChar(s[k])
    ensures n == |s| || !IsNumChar(s[n])
  {
    if s != [] && IsNumChar(s[0]) then 1 + NumRun(s[1..]) else 0
  }

  /** Moving the first character of `r` to the end of `w` leaves `w + r` unchanged. */
  lemma MoveFirst(w: seq<char>, r: seq<char>)
    requires r != []
    ensures (w + [r[0]]) + r[1..] == w + r
  {
    assert r == [r[0]] + r[1..];
  }

  /** The length of an alphanumeric run, read off a split of the stream into the run and what follows it. */
  lemma AlnumRunLength(t: seq<char>, w: seq<char>, r: seq<char>)
    requires 1 <= |w| && w + r == t
    requires forall k :: 0 <= k < |w| ==> IsAlnum(w[k])
    requires r == [] || !IsAlnum(r[0])
    ensures 1 + AlnumRun(t[1..]) == |w| && t[..|w|] == w && t[|w|..] == r
  {
    assert t[..|w|] == w && t[|w|..] == r;
    var n := |w| - 1;
    assert forall k :: 0 <= k < n ==> t[1..][k] == w[k + 1];
    assert n < |t[1..]| ==> t[1..][n] == r[0];
  }

  /** The length of a number run, read off a split of the stream into the run and what follows it. */
  lemma NumRunLength(t: seq<char>, w: seq<char>, r: seq<char>)
    requires 1 <= |w| && w + r == t
    requires forall k :: 0 <= k < |w| ==> IsNumChar(w[k])
    requires r == [] || !IsNumChar(r[0])
    ensures 1 + NumRun(t[1..]) == |w| && t[..|w|] == w && t[|w|..] == r
  {
    assert t[..|w|] == w && t[|w|..] == r;
    var n := |w| - 1;
    assert forall k :: 0 <= k < n ==> t[1..][k] == w[k + 1];
    assert n < |t[1..]| ==> t[1..][n] == r[0];
  }

  /** What a '#' comment leaves: the stream from the first '\n' or '\r' on, or nothing at EOF. */
  function CommentEnd(s: seq<char>): (r: seq<char>)
    ensures |r| <= |s|
    ensures r == [] || r[0] == '\n' || r[0] == '\r'
    ensures forall k :: 0 <= k < |s| - |r| ==> s[k] != '\n' && s[k] != '\r'
  {
    if s == [] then []
    else if s[0] == '\n' || s[0] == '\r' then s
    else CommentEnd(s[1..])
  }

  /**
   * One call of gettok on the stream `st.rest`.  Every call that does not
   * report EOF consumes at least one character; EOF leaves nothing to read.
   */
  function Lex(st: LexState): (r: Lexed)
    ensures r.tok == TokEof ==> r.st.rest == []
    ensures r.tok != TokEof ==> |r.st.rest| < |st.rest|
    ensures r.tok != TokNumber ==> r.st.num == st.num
    decreases |st.rest|, 1
  {
    LexAt(SkipSpaces(st.rest), st.ident, st.num)
  }

  /** The token starting the stream `t`, which has no leading whitespace. */
  function LexAt(t: seq<char>, ident: string, num: string): (r: Lexed)
    ensures r.tok == TokEof ==> r.st.rest == []
    ensures r.tok != TokEof ==> |r.st.rest| < |t|
    ensures r.tok != TokNumber ==> r.st.num == num
    decreases |t|, 0
  {
    if t == [] then Lexed(TokEof, LexState([], ident, num))
    else if IsAlpha(t[0]) then
      var n := 1 + AlnumRun(t[1..]);
      Lexed(WordToken(t[..n]), LexState(t[n..], t[..n], num))
    else if IsNumChar(t[0]) then
      var n := 1 + NumRun(t[1..]);
      Lexed(TokNumber, LexState(t[n..], ident, t[..n]))
    else if t[0] == '#' then
      var u := CommentEnd(t[1..]);
      if u == [] then Lexed(TokEof, LexState([], ident, num))
      else Lex(LexState(u, ident, num))
    else Lexed(TokChar(t[0]), LexState(t[1..], ident, num))
  }

  /** After whitespace, a letter starts a maximal [A-Za-z][A-Za-z0-9]* run: a keyword token, or tok_identifier with IdentifierStr set to the run. */
  lemma LexWord(st: LexState)
    requires var t := SkipSpaces(st.rest); t != [] && IsAlpha(t[0])
    ensures var t := SkipSpaces(st.rest);
            var r := Lex(st);
            var w := r.st.ident;
            && 1 <= |w| <= |t| && w == t[..|w|]
            && (forall k :: 0 <= k < |w| ==> IsAlnum(w[k]))
            && (|w| == |t| || !IsAlnum(t[|w|]))
            && r.st.rest == t[|w|..]
            && r.tok == WordToken(w)
            && (r.tok == TokIdentifier <==> w !in Keywords)
            && r.st.num == st.num
  {
    var t := SkipSpaces(st.rest);
    var n := 1 + AlnumRun(t[1..]);
    assert forall k :: 1 <= k < n ==> t[k] == t[1..][k - 1];
  }

  /** After whitespace, a digit or '.' starts a maximal [0-9.] run, returned as tok_number with that lexeme. */
  lemma LexNumber(st: LexState)
    requires var t := SkipSpaces(st.rest); t != [] && IsNumChar(t[0])
    ensures var t := SkipSpaces(st.rest);
            var r := Lex(st);
            var w := r.st.num;
            && r.tok == TokNumber
            && 1 <= |w| <= |t| && w == t[..|w|]
            && (forall k :: 0 <= k < |w| ==> IsNumChar(w[k]))
            && (|w| == |t| || !IsNumChar(t[|w|]))
            && r.st.rest == t[|w|..]
            && r.st.ident == st.ident
  {
    var t := SkipSpaces(st.rest);
    var n := 1 + NumRun(t[1..]);
    assert forall k :: 1 <= k < n ==> t[k] == t[1..][k - 1];
  }

  /** A '#' discards the input up to the end of the line and lexing resumes there; at EOF the result is tok_eof. */
  lemma LexComment(st: LexState)
    requires var t := SkipSpaces(st.rest); t != [] && t[0] == '#'
    ensures var t := SkipSpaces(st.rest);
            var u := CommentEnd(t[1..]);
            && (forall k :: 1 <= k < |t| - |u| ==> t[k] != '\n' && t[k] != '\r')
            && (u == [] ==> Lex(st) == Lexed(TokEof, LexState([], st.ident, st.num)))
            && (u != [] ==> (u[0] == '\n' || u[0] == '\r') && Lex(st) == Lex(LexState(u, st.ident, st.num)))
  {
    var t := SkipSpaces(st.rest);
    var u := CommentEnd(t[1..]);
    forall k | 1 <= k < |t| - |u| ensures t[k] != '\n' && t[k] != '\r' {
      assert t[k] == t[1..][k - 1];
    }
  }

  /** tok_identifier always comes with an IdentifierStr that is a well-formed, non-keyword identifier. */
  lemma {:induction false} LexIdentWord(st: LexState)
    ensures Lex(st).tok == TokIdentifier ==> IsIdentWord(Lex(st).st.ident)
    decreases |st.rest|
  {
    var t := SkipSpaces(st.rest);
    if t != [] && IsAlpha(t[0]) {
      LexWord(st);
    } else if t != [] && !IsNumChar(t[0]) && t[0] == '#' {
      var u := CommentEnd(t[1..]);
      if u != [] {
        LexIdentWord(LexState(u, st.ident, st.num));
      }
    }
  }

  /** Any other character is consumed and returned as itself. */
  lemma LexOther(st: LexState)
    requires var t := SkipSpaces(st.rest);
             t != [] && !IsAlpha(t[0]) && !IsNumChar(t[0]) && t[0] != '#'
    ensures var t := SkipSpaces(st.rest);
            Lex(st) == Lexed(TokChar(t[0]), LexState(t[1..], st.ident, st.num))
            && !IsSpace(t[0])
  {
  }

  /** Lexing starts by dropping the leading whitespace. */
  lemma LexSkipsSpaces(st: LexState)
    ensures Lex(st) == Lex(LexState(SkipSpaces(st.rest), st.ident, st.num))
  {
    var t := SkipSpaces(st.rest);
    assert SkipSpaces(t) == t;
  }

  /** Whitespace alone is skipped entirely. */
  lemma {:induction false} AllSpaces(s: seq<char>)
    requires forall k :: 0 <= k < |s| ==> IsSpace(s[k])
    ensures SkipSpaces(s) == []
  {
    if s != [] {
      AllSpaces(s[1..]);
    }
  }

  /** A stream holding only whitespace yields tok_eof. */
  lemma LexEof(st: LexState)
    requires forall k :: 0 <= k < |st.rest| ==> IsSpace(st.rest[k])
    ensures Lex(st) == Lexed(TokEof, LexState([], st.ident, st.num))
  {
    AllSpaces(st.rest);
  }

  /** The character read by getchar: a character, or EOF. */
  datatype Ch = Eof | Chr(c: char)

  /** gettok's persistent state: the input with its cursor, LastChar, IdentifierStr and the number lexeme. */
  class Lexer {
    const input: seq<char>
    var pos: nat
    var lastChar: Ch
    var identifierStr: string
    var numStr: string

    ghost predicate Valid()
      reads this
    {
      pos <= |input| && (lastChar.Eof? ==> pos == |input|)
    }

    /** The stream still to be lexed: LastChar, then the unread input. */
    ghost function Rest(): seq<char>
      reads this
      requires Valid()
    {
      if lastChar.Eof? then [] else [lastChar.c] + input[pos..]
    }

    ghost function State(): LexState
      reads this
      requires Valid()
    {
      LexState(Rest(), identifierStr, numStr)
    }

    /** LastChar starts as ' ' (line 90); the globals start empty. */
    constructor (input: seq<char>)
      ensures Valid() && this.input == input
      ensures State() == LexState([' '] + input, "", "")
    {
      this.input := input;
      pos := 0;
      lastChar := Chr(' ');
      identifierStr := "";
      numStr := "";
    }

    /** getchar: the next input character, or EOF (and EOF again on every later call). */
    method GetChar() returns (ch: Ch)
      requires pos <= |input|
      modifies this`pos
      ensures old(pos) < |input| ==> ch == Chr(input[old(pos)]) && pos == old(pos) + 1
      ensures old(pos) == |input| ==> ch == Eof && pos == old(pos)
    {
      if pos < |input| {
        ch := Chr(input[pos]);
        pos := pos + 1;
      } else {
        ch := Eof;
      }
    }

    /** LastChar = getchar(): the stream loses its first character. */
    method ReadNext()
      requires Valid() && lastChar.Chr?
      modifies this`pos, this`lastChar
      ensures Valid() && Rest() == old(Rest())[1..]
    {
      lastChar := GetChar();
      assert old(input[pos..]) == (if lastChar.Chr? then [lastChar.c] + input[pos..] else []);
    }

    /** The isspace loop at lines 93-94. */
    method SkipWhitespace()
      requires Valid()
      modifies this`pos, this`lastChar
      ensures Valid() && Rest() == SkipSpaces(old(Rest()))
    {
      while lastChar.Chr? && IsSpace(lastChar.c)
        invariant Valid()
        invariant SkipSpaces(Rest()) == SkipSpaces(old(Rest()))
        decreases |Rest()|
      {
        ReadNext();
      }
    }

    /** The identifier loop at lines 97-99: IdentifierStr becomes the maximal alphanumeric run. */
    method ReadWord()
      requires Valid() && lastChar.Chr? && IsAlpha(lastChar.c)
      modifies this`pos, this`lastChar, this`identifierStr
      ensures Valid()
      ensures var t := old(Rest()); var n := 1 + AlnumRun(t[1..]);
              identifierStr == t[..n] && Rest() == t[n..]
    {
      ghost var t := Rest();
      identifierStr := [lastChar.c];
      ReadNext();
      while lastChar.Chr? && IsAlnum(lastChar.c)
        invariant Valid()
        invariant 1 <= |identifierStr| && identifierStr + Rest() == t
        invariant forall k :: 0 <= k < |identifierStr| ==> IsAlnum(identifierStr[k])
        decreases |Rest()|
      {
        ghost var w, r := identifierStr, Rest();
        identifierStr := identifierStr + [lastChar.c];
        ReadNext();
        MoveFirst(w, r);
      }
      AlnumRunLength(t, identifierStr, Rest());
    }

    /** The number loop at lines 126-129: the lexeme is the maximal [0-9.] run. */
    method ReadNumber()
      requires Valid() && lastChar.Chr? && IsNumChar(lastChar.c)
      modifies this`pos, this`lastChar, this`numStr
      ensures Valid()
      ensures var t := old(Rest()); var n := 1 + NumRun(t[1..]);
              numStr == t[..n] && Rest() == t[n..]
    {
      ghost var t := Rest();
      numStr := [lastChar.c];
      ReadNext();
      while lastChar.Chr? && IsNumChar(lastChar.c)
        invariant Valid()
        invariant 1 <= |numStr| && numStr + Rest() == t
        invariant forall k :: 0 <= k < |numStr| ==> IsNumChar(numStr[k])
        decreases |Rest()|
      {
        ghost var w, r := numStr, Rest();
        numStr := numStr + [lastChar.c];
        ReadNext();
        MoveFirst(w, r);
      }
      NumRunLength(t, numStr, Rest());
    }

    /** The comment loop at lines 137-139: everything up to the end of the line is dropped. */
    method SkipComment()
      requires Valid() && lastChar == Chr('#')
      modifies this`pos, this`lastChar
      ensures Valid() && Rest() == CommentEnd(old(Rest())[1..])
    {
      ghost var t := Rest();
      ReadNext();
      while lastChar.Chr? && lastChar.c != '\n' && lastChar.c != '\r'
        invariant Valid()
        invariant CommentEnd(Rest()) == CommentEnd(t[1..])
        decreases |Rest()|
      {
        ReadNext();
      }
    }

    /** gettok (lines 89-151). */
    method GetTok() returns (tok: Token)
      requires Valid()
      modifies this
      ensures Valid()
      ensures tok == Lex(old(State())).tok && State() == Lex(old(State())).st
      decreases |Rest()|, 1
    {
      ghost var s0 := State();
      SkipWhitespace();
      LexSkipsSpaces(s0);
      tok := LexAtToken();
    }

    /** gettok once the leading whitespace is gone (lines 96-150). */
    method LexAtToken() returns (tok: Token)
      requires Valid() && (lastChar.Chr? ==> !IsSpace(lastChar.c))
      modifies this
      ensures Valid()
      ensures tok == Lex(old(State())).tok && State() == Lex(old(State())).st
      decreases |Rest()|, 0
    {
      if lastChar.Chr? && IsAlpha(lastChar.c) {
        tok := WordTok();
      } else if lastChar.Chr? && IsNumChar(lastChar.c) {
        tok := NumberTok();
      } else if lastChar == Chr('#') {
        ghost var s0 := State();
        SkipComment();
        LexComment(s0);
        if lastChar.Chr? {
          tok := GetTok();
        } else {
          tok := TokEof;
        }
      } else if lastChar.Eof? {
        tok := TokEof;
      } else {
        ghost var s0 := State();
        LexOther(s0);
        var thisChar := lastChar.c;
        ReadNext();
        tok := TokChar(thisChar);
      }
    }

    /** An identifier or keyword (lines 96-122). */
    method WordTok() returns (tok: Token)
      requires Valid() && lastChar.Chr? && IsAlpha(lastChar.c)
      modifies this`pos, this`lastChar, this`identifierStr
      ensures Valid()
      ensures tok == Lex(old(State())).tok && State() == Lex(old(State())).st
    {
      ghost var s0 := State();
      ReadWord();
      tok := WordToken(identifierStr);
      LexWord(s0);
    }

    /** A number (lines 124-133). */
    method NumberTok() returns (tok: Token)
      requires Valid() && lastChar.Chr? && IsNumChar(lastChar.c)
      modifies this`pos, this`lastChar, this`numStr
      ensures Valid()
      ensures tok == Lex(old(State())).tok && State() == Lex(old(State())).st
    {
      ghost var s0 := State();
      ReadNumber();
      tok := TokNumber;
      LexNumber(s0);
    }
  }
}
