/** Expressions from the repository's test suite, followed through the
    model: the tree the parser builds and the value the generated code
    leaves on the stack machine. */
module Samples {
  import opened Wrappers
  import opened Ast
  import opened Machine
  import opened Semantics
  import opened Generator
  import opened GeneratorProps
  import opened Parser
  import opened ParserProps

  /** What running the generated code of `e` from `s` does when `e`
      evaluates to `v`: it succeeds and pushes `v`. */
  predicate Leaves(e: Node, s: State, callee: Callee, v: int)
    requires Gen(e, 0).Success?
  {
    && Run(Gen(e, 0).value.code, s, callee).Some?
    && Run(Gen(e, 0).value.code, s, callee).value.stack == s.stack + [v]
  }

  /** `5+6*7` parses to `add(5, mul(6, 7))`, and its code leaves 47. */
  lemma AddMul(s: State, callee: Callee)
    ensures ParseExpr([NumTok(5, 0), Op("+"), NumTok(6, 0), Op("*"), NumTok(7, 0), Op(";")], map[])
         == Success(Parsed(Binary(Add, Num(5), Binary(Mul, Num(6), Num(7))), [Op(";")]))
    ensures var e := Binary(Add, Num(5), Binary(Mul, Num(6), Num(7)));
      Gen(e, 0).Success? && Leaves(e, s, callee, 47)
  {
    PrecedenceExample();
    AddMulValue(s, callee);
  }

  lemma AddMulValue(s: State, callee: Callee)
    ensures var e := Binary(Add, Num(5), Binary(Mul, Num(6), Num(7)));
      Gen(e, 0).Success? && Leaves(e, s, callee, 47)
  {
    var e := Binary(Add, Num(5), Binary(Mul, Num(6), Num(7)));
    assert Eval(Binary(Mul, Num(6), Num(7)), Get(s, Rbp), s.mem, callee.ret) == Some((42, s.mem));
    assert Eval(e, Get(s, Rbp), s.mem, callee.ret) == Some((47, s.mem));
    ExprCorrect(e, 0, s, callee);
  }

  /** `(3+5)/2` leaves 4. */
  lemma Halve(s: State, callee: Callee)
    ensures var e := Binary(Div, Binary(Add, Num(3), Num(5)), Num(2));
      Gen(e, 0).Success? && Leaves(e, s, callee, 4)
  {
    var e := Binary(Div, Binary(Add, Num(3), Num(5)), Num(2));
    assert TruncDiv(8, 2) == 4;
    assert Eval(Binary(Add, Num(3), Num(5)), Get(s, Rbp), s.mem, callee.ret) == Some((8, s.mem));
    assert Eval(e, Get(s, Rbp), s.mem, callee.ret) == Some((4, s.mem));
    ExprCorrect(e, 0, s, callee);
  }

  /** `1+1>=2` is `leq(2, 1+1)` and leaves 1; `1>2` is `lss(2, 1)` and
      leaves 0. */
  lemma Greater(s: State, callee: Callee)
    ensures var e := Binary(Leq, Num(2), Binary(Add, Num(1), Num(1)));
      Gen(e, 0).Success? && Leaves(e, s, callee, 1)
    ensures var e := Binary(Lss, Num(2), Num(1));
      Gen(e, 0).Success? && Leaves(e, s, callee, 0)
  {
    var e1 := Binary(Leq, Num(2), Binary(Add, Num(1), Num(1)));
    var e2 := Binary(Lss, Num(2), Num(1));
    assert Eval(Binary(Add, Num(1), Num(1)), Get(s, Rbp), s.mem, callee.ret) == Some((2, s.mem));
    assert Eval(e1, Get(s, Rbp), s.mem, callee.ret) == Some((1, s.mem));
    assert Eval(e2, Get(s, Rbp), s.mem, callee.ret) == Some((0, s.mem));
    ExprCorrect(e1, 0, s, callee);
    ExprCorrect(e2, 0, s, callee);
  }

  /** `a=1` stores 1 in `a`'s slot (offset 8) and leaves 1; reading `a`
      afterwards leaves 1. */
  lemma AssignThenRead(s: State, callee: Callee)
    ensures var e := Assign(LVar(8), Num(1));
      && Gen(e, 0).Success? && Leaves(e, s, callee, 1)
      && Run(Gen(e, 0).value.code, s, callee).value.mem == s.mem[Get(s, Rbp) - 8 := 1]
    ensures var t := Run(Gen(Assign(LVar(8), Num(1)), 0).value.code, s, callee);
      t.Some? ==> Leaves(LVar(8), t.value, callee, 1)
  {
    var e := Assign(LVar(8), Num(1));
    assert Eval(e, Get(s, Rbp), s.mem, callee.ret) == Some((1, s.mem[Get(s, Rbp) - 8 := 1]));
    ExprCorrect(e, 0, s, callee);
    var t := Run(Gen(e, 0).value.code, s, callee).value;
    assert Eval(LVar(8), Get(t, Rbp), t.mem, callee.ret) == Some((1, t.mem));
    ExprCorrect(LVar(8), 0, t, callee);
  }
}
