/** The order in which a call's arguments reach their registers.

    As written, the generator moves each argument into its register as
    soon as the argument's code has run: `pop rax; mov rdi, rax` right
    after the first argument, and so on. The code of a later argument may
    itself use `rdi` (every binary operator pops its right operand into
    it, and a nested call overwrites all six), so an earlier argument can
    be lost before the `call`. The generator of this model instead pushes
    every argument and pops them all into their registers just before the
    `call`; this module keeps the as-written order beside it and exhibits
    an input on which the two differ. */
module CallOrder {
  import opened Wrappers
  import opened Ast
  import opened Machine
  import opened Semantics
  import opened Generator
  import opened GeneratorProps

  /** The arguments from index `i` on, as written: each argument's code,
      then its value popped and moved into its register. */
  function ArgsAsWritten(args: seq<Node>, i: nat, k: nat): (r: Result<Emitted>)
    requires i <= |args|
    ensures r.Success? <==> GenArgs(args, i, k).Success?
    ensures r.Success? ==> r.value.next == GenArgs(args, i, k).value.next
    decreases |args| - i
  {
    if i == |args| then Success(Emitted([], k))
    else
      var a :- Gen(args[i], k);
      var reg :- ArgRegister(i);
      var b :- ArgsAsWritten(args, i + 1, a.next);
      Success(Emitted(a.code + [Pop(Rax), Mov(reg, Rax)] + b.code, b.next))
  }

  /** A call as written: the interleaved argument code, then the `call`
      and the push of its result. It fails on the same inputs as the
      model's generator and takes the same label numbers. */
  function CallAsWritten(f: string, args: seq<Node>, k: nat): (r: Result<Emitted>)
    ensures r.Success? <==> Gen(Call(f, args), k).Success?
    ensures r.Success? ==> r.value.next == Gen(Call(f, args), k).value.next
  {
    var a :- ArgsAsWritten(args, 0, k);
    Success(Emitted(a.code + [CallFn(f, |args|), Push(Rax)], a.next))
  }

  /** A callee returning its first argument. */
  const First: Callee := Callee((name: string, vs: seq<int>) => if |vs| > 0 then vs[0] else 0,
                                (name: string, vs: seq<int>, r: Reg) => 0)

  const Start: State := State(map[], [], map[], (0, 0))

  /** `f(1, 2+3)` with `f` returning its first argument. The value is 1.
      The as-written code moves 1 into `rdi`, then computes `2+3`, whose
      `pop rdi` leaves 3 there, so `f` is called with 3 and the call
      pushes 3. The model's generator pushes 1. */
  lemma ArgumentClobbered()
    ensures var e := Call("f", [Num(1), Binary(Add, Num(2), Num(3))]);
      && Eval(e, 0, map[], First.ret) == Some((1, map[]))
      && CallAsWritten("f", e.args, 0).Success?
      && Run(CallAsWritten("f", e.args, 0).value.code, Start, First).Some?
      && Run(CallAsWritten("f", e.args, 0).value.code, Start, First).value.stack == [3]
      && Run(Gen(e, 0).value.code, Start, First).Some?
      && Run(Gen(e, 0).value.code, Start, First).value.stack == [1]
  {
    var e := Call("f", [Num(1), Binary(Add, Num(2), Num(3))]);
    AsWrittenCode();
    AsWrittenRun();
    ExampleValue();
    ExprCorrect(e, 0, Start, First);
  }

  const Piece1: seq<Instr> := [PushImm(1), Pop(Rax), Mov(Rdi, Rax)]
  const Piece2: seq<Instr> := [PushImm(2), PushImm(3), Pop(Rdi), Pop(Rax), Arith(AddOp, Rax, Rdi), Push(Rax)]
  const Piece3: seq<Instr> := [Pop(Rax), Mov(Rsi, Rax)]
  const Piece4: seq<Instr> := [CallFn("f", 2), Push(Rax)]

  lemma AsWrittenCode()
    ensures CallAsWritten("f", [Num(1), Binary(Add, Num(2), Num(3))], 0).Success?
    ensures CallAsWritten("f", [Num(1), Binary(Add, Num(2), Num(3))], 0).value.code == Piece1 + Piece2 + Piece3 + Piece4
  {
  }

  lemma ExampleValue()
    ensures Eval(Call("f", [Num(1), Binary(Add, Num(2), Num(3))]), 0, map[], First.ret) == Some((1, map[]))
  {
    var m: Memory := map[];
    var sum := Binary(Add, Num(2), Num(3));
    assert Eval(sum, 0, m, First.ret) == Some((5, m));
    assert Eval(Num(1), 0, m, First.ret) == Some((1, m));
    assert [sum][1..] == [] && [sum][0] == sum;
    assert EvalArgs([], 0, m, First.ret) == Some(([], m));
    EvalArgsCons([sum], 0, m, First.ret);
    assert [5] + [] == [5];
    assert EvalArgs([sum], 0, m, First.ret) == Some(([5], m));
    assert [Num(1), sum][1..] == [sum] && [Num(1), sum][0] == Num(1);
    assert [1] + [5] == [1, 5];
    EvalArgsCons([Num(1), sum], 0, m, First.ret);
    assert EvalArgs([Num(1), sum], 0, m, First.ret) == Some(([1, 5], m));
  }

  /** Pushing a constant and moving it into `dst` through `rax`. */
  lemma MoveRun(v: int, dst: Reg, s: State)
    requires dst != Rax
    ensures Run([PushImm(v), Pop(Rax), Mov(dst, Rax)], s, First).Some?
    ensures var t := Run([PushImm(v), Pop(Rax), Mov(dst, Rax)], s, First).value;
      Get(t, dst) == v && t.stack == s.stack
  {
    var t1 := s.(stack := s.stack + [v]);
    var t2 := Put(t1.(stack := s.stack), Rax, v);
    assert t1.stack[..|t1.stack| - 1] == s.stack;
    RunCons(PushImm(v), [Pop(Rax), Mov(dst, Rax)], s, First);
    RunCons(Pop(Rax), [Mov(dst, Rax)], t1, First);
    RunOne(Mov(dst, Rax), t2, First);
  }

  /** `2+3` as generated: leaves 5 pushed and 3 in `rdi`. */
  lemma SumRun(s: State)
    ensures Run(Piece2, s, First).Some?
    ensures Get(Run(Piece2, s, First).value, Rdi) == 3 && Run(Piece2, s, First).value.stack == s.stack + [5]
  {
    var front := [PushImm(2), PushImm(3)];
    var tail := [Pop(Rdi), Pop(Rax), Arith(AddOp, Rax, Rdi), Push(Rax)];
    assert Piece2 == front + tail;
    var t1 := s.(stack := s.stack + [2]);
    var t2 := t1.(stack := s.stack + [2, 3]);
    RunCons(PushImm(2), [PushImm(3)], s, First);
    RunOne(PushImm(3), t1, First);
    assert front == [PushImm(2)] + [PushImm(3)];
    assert t1.stack + [3] == s.stack + [2, 3];
    assert Run(front, s, First) == Some(t2);
    AddTailRun(t2, s.stack, 2, 3);
    RunAppend(front, tail, s, First);
  }

  /** The tail of an addition: the sum is pushed, and the right operand
      stays in `rdi`. */
  lemma AddTailRun(s: State, base: seq<int>, a: int, b: int)
    requires s.stack == base + [a, b]
    ensures var tail := [Pop(Rdi), Pop(Rax), Arith(AddOp, Rax, Rdi), Push(Rax)];
      Run(tail, s, First).Some? && Get(Run(tail, s, First).value, Rdi) == b
      && Run(tail, s, First).value.stack == base + [a + b]
  {
    var s1 := Put(s.(stack := base + [a]), Rdi, b);
    var s2 := Put(s1.(stack := base), Rax, a);
    var s3 := Put(s2, Rax, a + b);
    assert base + [a, b] == (base + [a]) + [b];
    PopStep(Rdi, s, base + [a], b, First);
    PopStep(Rax, s1, base, a, First);
    RunCons(Pop(Rdi), [Pop(Rax), Arith(AddOp, Rax, Rdi), Push(Rax)], s, First);
    RunCons(Pop(Rax), [Arith(AddOp, Rax, Rdi), Push(Rax)], s1, First);
    RunCons(Arith(AddOp, Rax, Rdi), [Push(Rax)], s2, First);
    RunOne(Push(Rax), s3, First);
  }

  /** The as-written code of the example, run piece by piece. */
  lemma AsWrittenRun()
    ensures Run(Piece1 + Piece2 + Piece3 + Piece4, Start, First).Some?
    ensures Run(Piece1 + Piece2 + Piece3 + Piece4, Start, First).value.stack == [3]
  {
    MoveRun(1, Rdi, Start);
    var s1 := Run(Piece1, Start, First).value;
    SumRun(s1);
    var s2 := Run(Piece2, s1, First).value;
    CallPartRun(s2);
    RunAppend(Piece1, Piece2, Start, First);
    RunAppend(Piece3, Piece4, s2, First);
    RunAppend(Piece1 + Piece2, Piece3 + Piece4, Start, First);
    assert Piece1 + Piece2 + Piece3 + Piece4 == (Piece1 + Piece2) + (Piece3 + Piece4);
  }

  /** Moving 5 into `rsi` and calling `f` with 3 still in `rdi`. */
  lemma CallPartRun(s: State)
    requires s.stack == [5] && Get(s, Rdi) == 3
    ensures Run(Piece3, s, First).Some?
    ensures Run(Piece4, Run(Piece3, s, First).value, First).Some?
    ensures Run(Piece4, Run(Piece3, s, First).value, First).value.stack == [3]
  {
    var u := Put(s.(stack := []), Rax, 5);
    var s3 := Put(u, Rsi, 5);
    PopStep(Rax, s, [], 5, First);
    RunPair(Pop(Rax), Mov(Rsi, Rax), s, First);
    assert Step(u, Mov(Rsi, Rax), First) == Some(s3);
    assert Run(Piece3, s, First) == Some(s3);
    assert ArgValues(s3, 2) == [3, 5];
    var t := CallStep("f", s3, [3, 5], First);
    assert First.ret("f", [3, 5]) == 3;
    RunPair(CallFn("f", 2), Push(Rax), s3, First);
    assert Step(t, Push(Rax), First) == Some(t.(stack := t.stack + [3]));
  }
}
