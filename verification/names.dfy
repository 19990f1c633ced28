/**
 * The argument names PrototypeAST::codegen gives a function
 * (kaleidoscope/toy.cpp, lines 1001-1004): `Arg.setName(Args[Idx++])` for
 * each argument in turn.  The function's value symbol table refuses a name it
 * already holds and appends a number instead, counting up from the last
 * number it handed out, until the result is free: `def f(x x)` gets the
 * arguments "x" and "x1".
 */
module Naming {

  /** The decimal digit for d < 10. */
  function DigitChar(d: nat): (c: char)
    requires d < 10
    ensures '0' <= c <= '9'
  {
    ('0' as int + d) as char
  }

  /** A string of decimal digits. */
  predicate AllDigits(s: string) {
    forall k :: 0 <= k < |s| ==> '0' <= s[k] <= '9'
  }

  /** The decimal numeral of `n`, without leading zeros. */
  function Decimal(n: nat): (s: string)
    ensures |s| >= 1 && AllDigits(s)
  {
    if n < 10 then [DigitChar(n)] else Decimal(n / 10) + [DigitChar(n % 10)]
  }

  /** The number a string of decimal digits denotes. */
  function DecimalValue(s: string): nat
    requires AllDigits(s)
  {
    if s == [] then 0 else DecimalValue(s[..|s| - 1]) * 10 + (s[|s| - 1] as int - '0' as int)
  }

  /** Reading a numeral back gives the number it was written for. */
  lemma {:induction false} DecimalRoundTrip(n: nat)
    ensures DecimalValue(Decimal(n)) == n
  {
    var s := Decimal(n);
    if n < 10 {
      assert s[..|s| - 1] == [];
    } else {
      assert s[..|s| - 1] == Decimal(n / 10);
      DecimalRoundTrip(n / 10);
    }
  }

  /** The names of `taken` made of `base` and a numeral for a number at least `k`: the candidates the search may still run into. */
  ghost function Ahead(base: string, taken: set<string>, k: nat): set<string> {
    set c | c in taken && |c| > |base| && c[..|base|] == base && AllDigits(c[|base|..]) && DecimalValue(c[|base|..]) >= k
  }

  /** A taken candidate for `k` is ahead of the search at `k` and no longer at k+1. */
  lemma AheadShrinks(base: string, taken: set<string>, k: nat)
    requires base + Decimal(k) in taken
    ensures |Ahead(base, taken, k + 1)| < |Ahead(base, taken, k)|
  {
    var c := base + Decimal(k);
    assert c[..|base|] == base && c[|base|..] == Decimal(k);
    DecimalRoundTrip(k);
    var before, after := Ahead(base, taken, k), Ahead(base, taken, k + 1);
    assert c in before - after;
    assert before == after + (before - after);
  }

  /**
   * makeUniqueName: `base` followed by the numeral of k, k+1, ... until the
   * name is free; the name found and the number used.
   */
  function Unique(base: string, taken: set<string>, k: nat): (r: (string, nat))
    ensures r.0 !in taken && r.1 >= k && r.0 == base + Decimal(r.1)
    decreases |Ahead(base, taken, k)|
  {
    var c := base + Decimal(k);
    if c !in taken then (c, k)
    else
      AheadShrinks(base, taken, k);
      Unique(base, taken, k + 1)
  }

  /**
   * setName on one argument, with the names already in the symbol table in
   * `taken` and LastUnique in `last`: a free name is kept, a taken one gets
   * the next free numbered variant.  The name given and LastUnique after.
   */
  function SetName(a: string, taken: set<string>, last: nat): (r: (string, nat))
    ensures r.0 !in taken && last <= r.1
    ensures Numbered(a, r.0)
    ensures a !in taken ==> r == (a, last)
  {
    if a !in taken then (a, last) else Unique(a, taken, last + 1)
  }

  /** `n` is the name `a` itself, or `a` followed by a numeral. */
  ghost predicate Numbered(a: string, n: string) {
    n == a || exists k: nat :: n == a + Decimal(k)
  }

  /** SetName on each argument in turn, each name joining the table. */
  function Rename(args: seq<string>, taken: set<string>, last: nat): (r: seq<string>)
    ensures |r| == |args|
    ensures forall j :: 0 <= j < |r| ==> r[j] !in taken
    ensures forall j, k :: 0 <= j < k < |r| ==> r[j] != r[k]
    decreases |args|
  {
    if args == [] then []
    else
      var (n, last') := SetName(args[0], taken, last);
      [n] + Rename(args[1..], taken + {n}, last')
  }

  /** The argument names of a new function declared with parameter names `args`. */
  function ArgNames(args: seq<string>): (r: seq<string>)
    ensures |r| == |args|
    ensures forall j, k :: 0 <= j < k < |r| ==> r[j] != r[k]
  {
    Rename(args, {}, 0)
  }

  /** Each name Rename gives is its parameter's name, or that name followed by a numeral. */
  lemma {:induction false} RenameNumbered(args: seq<string>, taken: set<string>, last: nat)
    ensures forall j :: 0 <= j < |args| ==> Numbered(args[j], Rename(args, taken, last)[j])
    decreases |args|
  {
    if args != [] {
      var (n, last') := SetName(args[0], taken, last);
      RenameNumbered(args[1..], taken + {n}, last');
      forall j | 1 <= j < |args| ensures Numbered(args[j], Rename(args, taken, last)[j]) {
        assert args[j] == args[1..][j - 1];
      }
    }
  }

  /** Each argument is named by its parameter, a repeated one with a numeral appended. */
  lemma ArgNamesNumbered(args: seq<string>)
    ensures forall j :: 0 <= j < |args| ==> Numbered(args[j], ArgNames(args)[j])
  {
    RenameNumbered(args, {}, 0);
  }

  /** No two of `ps` are equal. */
  predicate Distinct(ps: seq<string>) {
    forall j, k :: 0 <= j < k < |ps| ==> ps[j] != ps[k]
  }

  /** Distinct names not yet in the table are all kept. */
  lemma {:induction false} RenameKeepsFresh(args: seq<string>, taken: set<string>, last: nat)
    requires Distinct(args) && forall j :: 0 <= j < |args| ==> args[j] !in taken
    ensures Rename(args, taken, last) == args
    decreases |args|
  {
    if args != [] {
      var a := args[0];
      forall j | 0 <= j < |args[1..]| ensures args[1..][j] !in taken + {a} {
        assert args[1..][j] == args[j + 1] && args[j + 1] != args[0];
      }
      RenameKeepsFresh(args[1..], taken + {a}, last);
      assert args == [a] + args[1..];
    }
  }

  /** Distinct parameter names are the argument names unchanged. */
  lemma ArgNamesDistinct(args: seq<string>)
    requires Distinct(args)
    ensures ArgNames(args) == args
  {
    RenameKeepsFresh(args, {}, 0);
  }

  /** A repeated parameter name is numbered: `f(x x)` has the arguments x and x1. */
  lemma ArgNamesRepeat(x: string)
    ensures ArgNames([x, x]) == [x, x + "1"]
  {
    assert Decimal(1) == "1";
    assert |x + "1"| != |x|;
    assert Unique(x, {x}, 1) == (x + "1", 1);
    assert [x, x][1..] == [x] && [x][1..] == [];
    assert Rename([x], {x}, 0) == [x + "1"];
    assert Rename([x, x], {}, 0) == [x] + Rename([x], {x}, 0);
  }

  /**
   * The counter is shared by all the arguments: in `f(x x x1)` the third
   * argument cannot have x1, which the second took, and gets x12.
   */
  lemma ArgNamesSharedCounter()
    ensures ArgNames(["x", "x", "x1"]) == ["x", "x1", "x12"]
  {
    var args := ["x", "x", "x1"];
    assert args[1..] == ["x", "x1"] && {} + {"x"} == {"x"};
    assert Rename(["x", "x1"], {"x"}, 0) == ["x1", "x12"] by {
      assert Decimal(1) == "1" && "x" + "1" == "x1";
      assert Unique("x", {"x"}, 1) == ("x1", 1);
      assert ["x", "x1"][1..] == ["x1"] && {"x"} + {"x1"} == {"x", "x1"};
      assert Rename(["x1"], {"x", "x1"}, 1) == ["x12"] by {
        assert Decimal(2) == "2" && "x1" + "2" == "x12";
        assert Unique("x1", {"x", "x1"}, 2) == ("x12", 2);
        assert ["x1"][1..] == [];
      }
    }
  }
}
