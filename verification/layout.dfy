/** The shape of what the generator emits around expressions: function
    frames, `return`, the order of a program's functions, and the node
    kinds it cannot compile. */
module GeneratorLayout {
  import opened Wrappers
  import opened Ast
  import opened Machine
  import opened Semantics
  import opened Generator
  import opened GeneratorProps

  /** A function starts with its label and the prologue that saves the
      caller's frame base and reserves 208 bytes, then stores its
      parameters, runs its statements, and ends with the epilogue. */
  lemma FuncLayout(name: string, params: seq<Node>, stmts: seq<Node>, k: nat)
    requires Gen(Func(name, params, stmts), k).Success?
    ensures var code := Gen(Func(name, params, stmts), k).value.code;
      && GenParams(params, 0).Success? && GenStmts(stmts, k).Success?
      && |code| >= 7
      && code[..4] == [FuncLabel(name), Push(Rbp), Mov(Rbp, Rsp), SubImm(Rsp, 208)]
      && code[|code| - 3..] == [Mov(Rsp, Rbp), Pop(Rbp), Ret]
      && code[4..|code| - 3] == GenParams(params, 0).value + GenStmts(stmts, k).value.code
  {
    var p := GenParams(params, 0).value;
    var b := GenStmts(stmts, k).value;
    var code := Gen(Func(name, params, stmts), k).value.code;
    assert code == [FuncLabel(name), Push(Rbp), Mov(Rbp, Rsp), SubImm(Rsp, 208)] + (p + b.code) + Epilogue;
  }

  /** A parameter list of more than six names cannot be generated, nor can
      one holding anything but variables. */
  lemma {:induction false} ParamsFail(params: seq<Node>, i: nat)
    requires i <= |params|
    ensures GenParams(params, i).Success? <==>
              (i == |params| || |params| <= |ArgRegs|) && forall j | i <= j < |params| :: params[j].LVar?
    decreases |params| - i
  {
    if i < |params| {
      ParamsFail(params, i + 1);
    }
  }

  /** For arguments that are expressions, both directions: a call's
      arguments generate exactly when there are at most six of them and
      each one generates on its own. */
  lemma {:induction false} ArgsFail(args: seq<Node>, i: nat, k: nat)
    requires i <= |args| && AllExpr(args)
    ensures GenArgs(args, i, k).Success? <==>
              (i == |args| || |args| <= |ArgRegs|) && forall j | i <= j < |args| :: Gen(args[j], k).Success?
    decreases |args| - i
  {
    if i < |args| {
      ArgsFail(args, i + 1, k);
      if Gen(args[i], k).Success? {
        ArgsStep(args, i, k);
      }
    }
  }

  /** An expression argument takes no label number, so the arguments
      after it start from the same number. */
  lemma ArgsStep(args: seq<Node>, i: nat, k: nat)
    requires i < |args| && IsExpr(args[i]) && Gen(args[i], k).Success?
    ensures GenArgs(args, i, k).Success? <==> i < |ArgRegs| && GenArgs(args, i + 1, k).Success?
  {
    LabelFree(args[i], k);
  }

  /** `return e` pops the value into `rax` and leaves the frame: with the
      caller's frame base `saved` on top of the stack, the code up to the
      final `ret` leaves `e`'s value in `rax`, the frame base restored, the
      stack pointer at the callee's frame base, and the stack as the
      caller had it. */
  lemma ReturnValue(e: Node, k: nat, s: State, callee: Callee, base: seq<int>, saved: int)
    requires IsExpr(e) && Gen(Return(e), k).Success? && s.stack == base + [saved]
    requires Eval(e, Get(s, Rbp), s.mem, callee.ret).Some?
    ensures var code := Gen(Return(e), k).value.code;
      && |code| > 0 && code[|code| - 1] == Ret
      && Run(code[..|code| - 1], s, callee).Some?
      && var t := Run(code[..|code| - 1], s, callee).value;
         && Get(t, Rax) == Eval(e, Get(s, Rbp), s.mem, callee.ret).value.0
         && Get(t, Rbp) == saved && Get(t, Rsp) == Get(s, Rbp) && t.stack == base
  {
    var a := Gen(e, k).value.code;
    var code := Gen(Return(e), k).value.code;
    var tail := [Pop(Rax), Mov(Rsp, Rbp), Pop(Rbp)];
    assert code == a + [Pop(Rax)] + Epilogue;
    assert code[..|code| - 1] == a + tail;
    ExprCorrect(e, k, s, callee);
    var s1 := Run(a, s, callee).value;
    var v := Eval(e, Get(s, Rbp), s.mem, callee.ret).value.0;
    LeaveRun(s1, base, saved, v, callee);
    RunAppend(a, tail, s, callee);
  }

  /** The three instructions of `return` before `ret`. */
  lemma LeaveRun(s: State, base: seq<int>, saved: int, v: int, callee: Callee)
    requires s.stack == base + [saved, v]
    ensures var tail := [Pop(Rax), Mov(Rsp, Rbp), Pop(Rbp)];
      && Run(tail, s, callee).Some?
      && var t := Run(tail, s, callee).value;
         Get(t, Rax) == v && Get(t, Rbp) == saved && Get(t, Rsp) == Get(s, Rbp) && t.stack == base
  {
    var s1 := Put(s.(stack := base + [saved]), Rax, v);
    var s2 := Put(s1, Rsp, Get(s1, Rbp));
    var s3 := Put(s2.(stack := base), Rbp, saved);
    assert base + [saved, v] == (base + [saved]) + [v];
    PopStep(Rax, s, base + [saved], v, callee);
    PopStep(Rbp, s2, base, saved, callee);
    RunCons(Pop(Rax), [Mov(Rsp, Rbp), Pop(Rbp)], s, callee);
    RunCons(Mov(Rsp, Rbp), [Pop(Rbp)], s1, callee);
    RunOne(Pop(Rbp), s2, callee);
  }

  /** Generating two lists of top-level nodes one after the other is
      generating their concatenation: the code of each node in input
      order, the label counter carried from one to the next. */
  lemma {:induction false} AllAppend(xs: seq<Node>, ys: seq<Node>, k: nat)
    ensures GenAll(xs + ys, k).Success? <==>
              GenAll(xs, k).Success? && GenAll(ys, GenAll(xs, k).value.next).Success?
    ensures GenAll(xs + ys, k).Success? ==>
              GenAll(xs + ys, k).value ==
                Emitted(GenAll(xs, k).value.code + GenAll(ys, GenAll(xs, k).value.next).value.code,
                        GenAll(ys, GenAll(xs, k).value.next).value.next)
    decreases xs
  {
    if |xs| == 0 {
      assert xs + ys == ys;
    } else {
      assert (xs + ys)[0] == xs[0] && (xs + ys)[1..] == xs[1..] + ys;
      if Gen(xs[0], k).Success? {
        var a := Gen(xs[0], k).value;
        AllAppend(xs[1..], ys, a.next);
        if GenAll(xs + ys, k).Success? {
          var r := GenAll(xs[1..], a.next).value;
          var q := GenAll(ys, r.next).value;
          assert a.code + (r.code + q.code) == (a.code + r.code) + q.code;
        }
      }
    }
  }

  /** A program of one more function: the directives and the earlier
      functions' code are unchanged, the new function's code follows,
      taking its labels from where the earlier ones stopped. */
  lemma ProgramGrows(nodes: seq<Node>, f: Node)
    requires GenerateCode(nodes + [f]).Success?
    ensures GenerateCode(nodes).Success? && Gen(f, GenAll(nodes, 0).value.next).Success?
    ensures GenerateCode(nodes + [f]).value == GenerateCode(nodes).value + Gen(f, GenAll(nodes, 0).value.next).value.code
  {
    AllAppend(nodes, [f], 0);
    var n := GenAll(nodes, 0).value.next;
    assert [f][1..] == [] && [f][0] == f;
    var g := Gen(f, n).value;
    assert GenAll([f], n).value.code == g.code + [];
    assert Directives + (GenAll(nodes, 0).value.code + g.code) == Directives + GenAll(nodes, 0).value.code + g.code;
  }

  /** A node with no generator case: a declaration, a dereference, an
      address-of. */
  predicate Unsupported(n: Node) {
    n.IntDecl? || n.Deref? || n.Addr?
  }

  /** A statement list holding a node the generator has no case for
      cannot be generated: its error surfaces, whatever comes before. In
      particular a function body declaring a local with `int` fails. */
  lemma {:induction false} StmtsFail(ss: seq<Node>, k: nat, j: nat)
    requires j < |ss| && Unsupported(ss[j])
    ensures GenStmts(ss, k).Failure?
    decreases j
  {
    if j > 0 && Gen(ss[0], k).Success? {
      StmtsFail(ss[1..], Gen(ss[0], k).value.next, j - 1);
    }
  }

  lemma FuncFails(name: string, params: seq<Node>, stmts: seq<Node>, k: nat, j: nat)
    requires j < |stmts| && Unsupported(stmts[j])
    ensures Gen(Func(name, params, stmts), k).Failure?
  {
    StmtsFail(stmts, k, j);
  }
}
