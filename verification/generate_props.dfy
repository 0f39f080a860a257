/** Properties of the generated code: expression code computes what the
    reference evaluator says and leaves exactly one value on the stack;
    labels are fresh, distinct and every jump lands on one; and the
    function, loop and program layouts. */
module GeneratorProps {
  import opened Wrappers
  import opened Ast
  import opened Machine
  import opened Semantics
  import opened Generator

  /** `s'` is `s` with `v` pushed, memory `m`, and the frame base kept. */
  predicate Pushed(s: State, s': State, v: int, m: Memory) {
    s'.stack == s.stack + [v] && s'.mem == m && Get(s', Rbp) == Get(s, Rbp)
  }

  /** `push` of a register, then everything after it. */
  lemma PushRun(r: Reg, rest: seq<Instr>, s: State, callee: Callee)
    ensures Run([Push(r)] + rest, s, callee) == Run(rest, s.(stack := s.stack + [Get(s, r)]), callee)
  {
    assert ([Push(r)] + rest)[0] == Push(r) && ([Push(r)] + rest)[1..] == rest;
  }

  /** The address code pushes `rbp - offset` and changes no memory. */
  lemma AddressRun(offset: int, s: State, callee: Callee)
    ensures Run(AddressCode(offset), s, callee).Some?
    ensures Pushed(s, Run(AddressCode(offset), s, callee).value, Get(s, Rbp) - offset, s.mem)
  {
    var s1 := Put(s, Rax, Get(s, Rbp));
    var s2 := Put(s1, Rax, Get(s, Rbp) - offset);
    assert Step(s, Mov(Rax, Rbp), callee) == Some(s1);
    assert Step(s1, SubImm(Rax, offset), callee) == Some(s2);
    var c := AddressCode(offset);
    assert c[1..] == [SubImm(Rax, offset), Push(Rax)] && c[1..][1..] == [Push(Rax)];
    assert Run([Push(Rax)], s2, callee) == Some(s2.(stack := s2.stack + [Get(s2, Rax)])) by {
      assert [Push(Rax)][1..] == [];
    }
  }

  lemma RunCons(i: Instr, rest: seq<Instr>, s: State, callee: Callee)
    ensures Run([i] + rest, s, callee) ==
              match Step(s, i, callee) case None => None case Some(s1) => Run(rest, s1, callee)
  {
    assert ([i] + rest)[0] == i && ([i] + rest)[1..] == rest;
  }

  lemma RunOne(i: Instr, s: State, callee: Callee)
    ensures Run([i], s, callee) == Step(s, i, callee)
  {
    assert [i][1..] == [];
  }

  /** The state the operator code leaves: `rax` holds `v`, the stack,
      memory and frame base are untouched. */
  predicate Combined(s: State, s': State, v: int) {
    Get(s', Rax) == v && s'.stack == s.stack && s'.mem == s.mem && Get(s', Rbp) == Get(s, Rbp)
  }

  lemma ArithRun(op: BinOp, s: State, callee: Callee)
    requires op == Add || op == Sub || op == Mul
    ensures Run(OpCode(op), s, callee).Some?
    ensures Combined(s, Run(OpCode(op), s, callee).value, Apply(op, Get(s, Rax), Get(s, Rdi)).value)
  {
    var aop := if op == Add then AddOp else if op == Sub then SubOp else ImulOp;
    assert OpCode(op) == [Arith(aop, Rax, Rdi)];
    RunOne(Arith(aop, Rax, Rdi), s, callee);
  }

  lemma DivRun(s: State, callee: Callee)
    ensures Run(OpCode(Div), s, callee).Some? <==> Get(s, Rdi) != 0
    ensures Get(s, Rdi) != 0 ==>
              Combined(s, Run(OpCode(Div), s, callee).value, TruncDiv(Get(s, Rax), Get(s, Rdi)))
  {
    var s1 := Put(s, Rdx, if Get(s, Rax) < 0 then -1 else 0);
    RunCons(Cqo, [Idiv(Rdi)], s, callee);
    RunOne(Idiv(Rdi), s1, callee);
  }

  /** `cmp rax, rdi; setcc al; movzb rax, al` leaves the condition's
      truth as 0 or 1 in `rax`. */
  lemma SetRun(cc: Cond, s: State, callee: Callee)
    ensures Run([Cmp(Rax, Rdi), Set(cc), Movzb(Rax, Al)], s, callee).Some?
    ensures Combined(s, Run([Cmp(Rax, Rdi), Set(cc), Movzb(Rax, Al)], s, callee).value,
                     if Holds(cc, (Get(s, Rax), Get(s, Rdi))) then 1 else 0)
  {
    var s1 := s.(flags := (Get(s, Rax), Get(s, Rdi)));
    var s2 := Put(s1, Al, if Holds(cc, s1.flags) then 1 else 0);
    var s3 := Put(s2, Rax, Get(s2, Al));
    assert Step(s, Cmp(Rax, Rdi), callee) == Some(s1);
    assert Step(s1, Set(cc), callee) == Some(s2);
    assert Step(s2, Movzb(Rax, Al), callee) == Some(s3);
    RunCons(Cmp(Rax, Rdi), [Set(cc), Movzb(Rax, Al)], s, callee);
    RunCons(Set(cc), [Movzb(Rax, Al)], s1, callee);
    RunOne(Movzb(Rax, Al), s2, callee);
  }

  lemma CompareRun(op: BinOp, s: State, callee: Callee)
    requires IsComparison(op)
    ensures Run(OpCode(op), s, callee).Some?
    ensures Combined(s, Run(OpCode(op), s, callee).value, Apply(op, Get(s, Rax), Get(s, Rdi)).value)
  {
    var cc := match op case Equ => E case Neq => Ne case Lss => L case _ => Le;
    assert OpCode(op) == [Cmp(Rax, Rdi), Set(cc), Movzb(Rax, Al)];
    SetRun(cc, s, callee);
  }

  /** The operator code turns `rax` (left) and `rdi` (right) into the
      operator's value in `rax`, and is stuck exactly when it divides by
      zero. */
  lemma OpCodeRun(op: BinOp, s: State, callee: Callee)
    ensures Run(OpCode(op), s, callee).Some? <==> Apply(op, Get(s, Rax), Get(s, Rdi)).Some?
    ensures Run(OpCode(op), s, callee).Some? ==>
              Combined(s, Run(OpCode(op), s, callee).value, Apply(op, Get(s, Rax), Get(s, Rdi)).value)
  {
    if op == Div {
      DivRun(s, callee);
    } else if IsComparison(op) {
      CompareRun(op, s, callee);
    } else {
      ArithRun(op, s, callee);
    }
  }

  lemma PopStep(r: Reg, s: State, base: seq<int>, v: int, callee: Callee)
    requires s.stack == base + [v]
    ensures Step(s, Pop(r), callee) == Some(Put(s.(stack := base), r, v))
  {
    assert s.stack[..|s.stack| - 1] == base;
  }

  /** Loading through the address on top of the stack. */
  lemma LoadTailRun(s: State, base: seq<int>, a: int, callee: Callee)
    requires s.stack == base + [a]
    ensures Run([Pop(Rax), Load(Rax, Rax), Push(Rax)], s, callee).Some?
    ensures Run([Pop(Rax), Load(Rax, Rax), Push(Rax)], s, callee).value.stack == base + [Read(s.mem, a)]
    ensures Run([Pop(Rax), Load(Rax, Rax), Push(Rax)], s, callee).value.mem == s.mem
    ensures Get(Run([Pop(Rax), Load(Rax, Rax), Push(Rax)], s, callee).value, Rbp) == Get(s, Rbp)
  {
    var s1 := Put(s.(stack := base), Rax, a);
    var s2 := Put(s1, Rax, Read(s1.mem, a));
    PopStep(Rax, s, base, a, callee);
    assert Step(s1, Load(Rax, Rax), callee) == Some(s2);
    RunCons(Pop(Rax), [Load(Rax, Rax), Push(Rax)], s, callee);
    RunCons(Load(Rax, Rax), [Push(Rax)], s1, callee);
    RunOne(Push(Rax), s2, callee);
  }

  /** Storing the value on top of the stack through the address under it,
      and pushing the value back. */
  lemma StoreTailRun(s: State, base: seq<int>, addr: int, v: int, callee: Callee)
    requires s.stack == base + [addr, v]
    ensures Run([Pop(Rdi), Pop(Rax), Store(Rax, Rdi), Push(Rdi)], s, callee).Some?
    ensures Pushed(s.(stack := base), Run([Pop(Rdi), Pop(Rax), Store(Rax, Rdi), Push(Rdi)], s, callee).value,
                   v, s.mem[addr := v])
  {
    var s1 := Put(s.(stack := base + [addr]), Rdi, v);
    var s2 := Put(s1.(stack := base), Rax, addr);
    var s3 := s2.(mem := s2.mem[addr := v]);
    assert base + [addr, v] == (base + [addr]) + [v];
    PopStep(Rdi, s, base + [addr], v, callee);
    PopStep(Rax, s1, base, addr, callee);
    assert Step(s2, Store(Rax, Rdi), callee) == Some(s3);
    RunCons(Pop(Rdi), [Pop(Rax), Store(Rax, Rdi), Push(Rdi)], s, callee);
    RunCons(Pop(Rax), [Store(Rax, Rdi), Push(Rdi)], s1, callee);
    RunCons(Store(Rax, Rdi), [Push(Rdi)], s2, callee);
    RunOne(Push(Rdi), s3, callee);
  }

  /** Popping both operands, combining them and pushing the result. */
  lemma BinaryTailRun(op: BinOp, s: State, base: seq<int>, a: int, b: int, callee: Callee)
    requires s.stack == base + [a, b]
    ensures Run([Pop(Rdi), Pop(Rax)] + OpCode(op) + [Push(Rax)], s, callee).Some? <==> Apply(op, a, b).Some?
    ensures Apply(op, a, b).Some? ==>
              Pushed(s.(stack := base), Run([Pop(Rdi), Pop(Rax)] + OpCode(op) + [Push(Rax)], s, callee).value,
                     Apply(op, a, b).value, s.mem)
  {
    var s1 := Put(s.(stack := base + [a]), Rdi, b);
    var s2 := Put(s1.(stack := base), Rax, a);
    assert base + [a, b] == (base + [a]) + [b];
    PopStep(Rdi, s, base + [a], b, callee);
    PopStep(Rax, s1, base, a, callee);
    var t := OpCode(op) + [Push(Rax)];
    assert [Pop(Rdi), Pop(Rax)] + OpCode(op) + [Push(Rax)] == [Pop(Rdi)] + ([Pop(Rax)] + t);
    RunCons(Pop(Rdi), [Pop(Rax)] + t, s, callee);
    RunCons(Pop(Rax), t, s1, callee);
    RunAppend(OpCode(op), [Push(Rax)], s2, callee);
    OpCodeRun(op, s2, callee);
    if Apply(op, a, b).Some? {
      RunOne(Push(Rax), Run(OpCode(op), s2, callee).value, callee);
    }
  }

  /** `s'` is `s` after popping the values `vs` above `base` into the
      first `|vs|` argument registers, in order. */
  predicate PoppedInto(s: State, s': State, base: seq<int>, vs: seq<int>)
    requires |vs| <= |ArgRegs|
  {
    && s'.stack == base && s'.mem == s.mem
    && (forall i | 0 <= i < |vs| :: Get(s', ArgRegs[i]) == vs[i])
    && (forall r | r !in ArgRegs[..|vs|] :: Get(s', r) == Get(s, r))
  }

  lemma PopArgsStep(s: State, s1: State, s': State, base: seq<int>, vs: seq<int>)
    requires 0 < |vs| <= |ArgRegs|
    requires s1 == Put(s.(stack := base + vs[..|vs| - 1]), ArgRegs[|vs| - 1], vs[|vs| - 1])
    requires PoppedInto(s1, s', base, vs[..|vs| - 1])
    ensures PoppedInto(s, s', base, vs)
  {
    var n := |vs|;
    var r := ArgRegs[n - 1];
    assert ArgRegs[..n] == ArgRegs[..n - 1] + [r];
    assert r !in ArgRegs[..n - 1];
    assert Get(s', r) == vs[n - 1];
  }

  /** Popping `n` pushed values into the argument registers puts the
      `i`-th value in the `i`-th register and touches nothing else. */
  lemma {:induction false} PopArgsRun(s: State, base: seq<int>, vs: seq<int>, callee: Callee)
    requires |vs| <= |ArgRegs| && s.stack == base + vs
    ensures Run(PopArgs(|vs|), s, callee).Some?
    ensures PoppedInto(s, Run(PopArgs(|vs|), s, callee).value, base, vs)
    decreases |vs|
  {
    var n := |vs|;
    if n == 0 {
      assert vs == [] && base + vs == base;
    } else {
      var r := ArgRegs[n - 1];
      var s1 := Put(s.(stack := base + vs[..n - 1]), r, vs[n - 1]);
      assert s.stack == (base + vs[..n - 1]) + [vs[n - 1]] by {
        assert vs == vs[..n - 1] + [vs[n - 1]];
      }
      PopStep(r, s, base + vs[..n - 1], vs[n - 1], callee);
      assert PopArgs(n) == [Pop(r)] + PopArgs(n - 1);
      RunCons(Pop(r), PopArgs(n - 1), s, callee);
      PopArgsRun(s1, base, vs[..n - 1], callee);
      PopArgsStep(s, s1, Run(PopArgs(n - 1), s1, callee).value, base, vs);
    }
  }

  /** `call f` with the values `vs` in the argument registers, then
      `push rax`. */
  lemma CallPushRun(f: string, s: State, vs: seq<int>, callee: Callee)
    requires |vs| <= |ArgRegs| && ArgValues(s, |vs|) == vs
    ensures Run([CallFn(f, |vs|), Push(Rax)], s, callee).Some?
    ensures Pushed(s, Run([CallFn(f, |vs|), Push(Rax)], s, callee).value, callee.ret(f, vs), s.mem)
  {
    var t := CallStep(f, s, vs, callee);
    RunPair(CallFn(f, |vs|), Push(Rax), s, callee);
    assert Step(t, Push(Rax), callee) == Some(t.(stack := t.stack + [Get(t, Rax)]));
  }

  /** Two instructions in turn. */
  lemma RunPair(i: Instr, j: Instr, s: State, callee: Callee)
    ensures Run([i, j], s, callee) == match Step(s, i, callee) case None => None case Some(t) => Step(t, j, callee)
  {
    assert [i, j] == [i] + [j];
    RunCons(i, [j], s, callee);
    match Step(s, i, callee)
    case None =>
    case Some(t) => RunOne(j, t, callee);
  }

  /** `call f` alone: `rax` holds the result, and the stack, memory and
      frame base are untouched. */
  lemma CallStep(f: string, s: State, vs: seq<int>, callee: Callee) returns (t: State)
    requires |vs| <= |ArgRegs| && ArgValues(s, |vs|) == vs
    ensures Step(s, CallFn(f, |vs|), callee) == Some(t)
    ensures Combined(s, t, callee.ret(f, vs))
  {
    var c := Clobber(s, callee, f, vs);
    assert Rbp !in ArgRegs;
    assert Get(c, Rbp) == Get(s, Rbp);
    assert Step(s, CallFn(f, |vs|), callee) == CallOut(s, f, |vs|, callee);
    t := Put(c, Rax, callee.ret(f, vs));
  }

  /** What the pops leave for the call: the values in their registers,
      the stack below them, memory and frame base untouched. */
  lemma PoppedArgs(s: State, s1: State, base: seq<int>, vs: seq<int>)
    requires |vs| <= |ArgRegs| && PoppedInto(s, s1, base, vs)
    ensures ArgValues(s1, |vs|) == vs && s1.stack == base && s1.mem == s.mem && Get(s1, Rbp) == Get(s, Rbp)
  {
    assert Rbp !in ArgRegs[..|vs|];
  }

  lemma CallTailRun(f: string, n: nat, s: State, base: seq<int>, vs: seq<int>, callee: Callee)
    requires n <= |ArgRegs| && |vs| == n && s.stack == base + vs
    ensures Run(PopArgs(n) + [CallFn(f, n), Push(Rax)], s, callee).Some?
    ensures Pushed(s.(stack := base), Run(PopArgs(n) + [CallFn(f, n), Push(Rax)], s, callee).value,
                   callee.ret(f, vs), s.mem)
  {
    PopArgsRun(s, base, vs, callee);
    var s1 := Run(PopArgs(n), s, callee).value;
    PoppedArgs(s, s1, base, vs);
    CallPushRun(f, s1, vs, callee);
    RunAppend(PopArgs(n), [CallFn(f, n), Push(Rax)], s, callee);
  }

  /** Running `code` from `s` agrees with the evaluator's outcome `ev`:
      stuck exactly when there is no value, and otherwise the value pushed
      on the stack with the evaluator's memory, the frame base kept. */
  predicate Agrees(code: seq<Instr>, s: State, callee: Callee, ev: Option<(int, Memory)>) {
    && (Run(code, s, callee).Some? <==> ev.Some?)
    && (ev.Some? ==> Pushed(s, Run(code, s, callee).value, ev.value.0, ev.value.1))
  }

  /** The same for a list of values pushed in order. */
  predicate AgreesAll(code: seq<Instr>, s: State, callee: Callee, ev: Option<(seq<int>, Memory)>) {
    && (Run(code, s, callee).Some? <==> ev.Some?)
    && (ev.Some? ==>
          var s' := Run(code, s, callee).value;
          s'.stack == s.stack + ev.value.0 && s'.mem == ev.value.1 && Get(s', Rbp) == Get(s, Rbp))
  }

  /** No label, jump or return instruction. */
  predicate Straight(code: seq<Instr>) {
    forall i | 0 <= i < |code| :: !code[i].Label? && !code[i].Jmp? && !code[i].Je? && !code[i].Ret?
  }

  lemma StraightAppend(a: seq<Instr>, b: seq<Instr>)
    requires Straight(a) && Straight(b)
    ensures Straight(a + b)
  {
    forall i | 0 <= i < |a + b|
      ensures !(a + b)[i].Label? && !(a + b)[i].Jmp? && !(a + b)[i].Je? && !(a + b)[i].Ret?
    {
      if i >= |a| { assert (a + b)[i] == b[i - |a|]; }
    }
  }

  /** Expressions take no label numbers and compile to code without
      labels, jumps or returns. */
  lemma {:induction false} LabelFree(e: Node, k: nat)
    requires IsExpr(e) && Gen(e, k).Success?
    ensures Gen(e, k).value.next == k
    ensures Straight(Gen(e, k).value.code)
    decreases e, 1
  {
    match e
    case Num(_) =>
    case LVar(_) =>
    case Assign(l, rhs) =>
      LabelFree(rhs, k);
      var tail := [Pop(Rdi), Pop(Rax), Store(Rax, Rdi), Push(Rdi)];
      StraightAppend(AddressCode(l.offset), Gen(rhs, k).value.code);
      StraightAppend(AddressCode(l.offset) + Gen(rhs, k).value.code, tail);
    case Binary(op, l, rhs) => BinaryLabelFree(op, l, rhs, k);
    case Call(f, args) =>
      ArgsLabelFree(args, 0, k);
      var a := GenArgs(args, 0, k).value.code;
      StraightAppend(a, PopArgs(|args|));
      StraightAppend(a + PopArgs(|args|), [CallFn(f, |args|), Push(Rax)]);
  }

  lemma {:induction false} BinaryLabelFree(op: BinOp, l: Node, rhs: Node, k: nat)
    requires IsExpr(Binary(op, l, rhs)) && Gen(Binary(op, l, rhs), k).Success?
    ensures Gen(Binary(op, l, rhs), k).value.next == k
    ensures Straight(Gen(Binary(op, l, rhs), k).value.code)
    decreases Binary(op, l, rhs), 0
  {
    LabelFree(l, k);
    LabelFree(rhs, k);
    var a, b := Gen(l, k).value.code, Gen(rhs, k).value.code;
    StraightAppend(a, b);
    StraightAppend(a + b, [Pop(Rdi), Pop(Rax)]);
    StraightAppend(a + b + [Pop(Rdi), Pop(Rax)], OpCode(op));
    StraightAppend(a + b + [Pop(Rdi), Pop(Rax)] + OpCode(op), [Push(Rax)]);
  }

  lemma {:induction false} ArgsLabelFree(args: seq<Node>, i: nat, k: nat)
    requires i <= |args| && AllExpr(args) && GenArgs(args, i, k).Success?
    ensures GenArgs(args, i, k).value.next == k
    ensures Straight(GenArgs(args, i, k).value.code)
    decreases args, |args| - i
  {
    if i < |args| {
      LabelFree(args[i], k);
      ArgsLabelFree(args, i + 1, k);
      StraightAppend(Gen(args[i], k).value.code, GenArgs(args, i + 1, k).value.code);
    }
  }

  /** Code generation is correct for expressions: the code an expression
      compiles to computes the value the evaluator gives it, with the
      frame base in `rbp` as the frame, pushes exactly that value, leaves
      memory as the evaluator does, and gets stuck exactly when the
      evaluator has no value (a division by zero). Expressions use no
      labels. */
  lemma {:induction false} ExprCorrect(e: Node, k: nat, s: State, callee: Callee)
    requires IsExpr(e) && Gen(e, k).Success?
    ensures Agrees(Gen(e, k).value.code, s, callee, Eval(e, Get(s, Rbp), s.mem, callee.ret))
    decreases e, 1
  {
    match e
    case Num(v) => RunOne(PushImm(v), s, callee);
    case LVar(o) => LVarCorrect(o, k, s, callee);
    case Assign(l, rhs) => AssignCorrect(l, rhs, k, s, callee);
    case Binary(op, l, rhs) => BinaryCorrect(op, l, rhs, k, s, callee);
    case Call(f, args) => CallCorrect(f, args, k, s, callee);
  }

  lemma LVarCorrect(o: int, k: nat, s: State, callee: Callee)
    ensures Agrees(Gen(LVar(o), k).value.code, s, callee, Eval(LVar(o), Get(s, Rbp), s.mem, callee.ret))
  {
    AddressRun(o, s, callee);
    var s1 := Run(AddressCode(o), s, callee).value;
    RunAppend(AddressCode(o), [Pop(Rax), Load(Rax, Rax), Push(Rax)], s, callee);
    LoadTailRun(s1, s.stack, Get(s, Rbp) - o, callee);
  }

  /** The evaluator's outcome for an assignment to the local at `o`
      from the right-hand side's outcome `ev`. */
  lemma EvalAssign(o: int, rhs: Node, frame: int, mem: Memory, ret: (string, seq<int>) -> int)
    requires IsExpr(rhs)
    ensures Eval(Assign(LVar(o), rhs), frame, mem, ret) ==
              match Eval(rhs, frame, mem, ret)
              case None => None
              case Some((v, m)) => Some((v, m[frame - o := v]))
  {
  }

  /** Assignment code after the address is pushed (state `s1`), given
      that the right-hand side's code agrees with the evaluator. */
  lemma AssignRun(o: int, rhs: Node, cb: seq<Instr>, s: State, s1: State, callee: Callee)
    requires IsExpr(rhs)
    requires Pushed(s, s1, Get(s, Rbp) - o, s.mem)
    requires Agrees(cb, s1, callee, Eval(rhs, Get(s, Rbp), s.mem, callee.ret))
    ensures Run(cb + [Pop(Rdi), Pop(Rax), Store(Rax, Rdi), Push(Rdi)], s1, callee).Some? <==>
              Eval(Assign(LVar(o), rhs), Get(s, Rbp), s.mem, callee.ret).Some?
    ensures Eval(Assign(LVar(o), rhs), Get(s, Rbp), s.mem, callee.ret).Some? ==>
              Pushed(s, Run(cb + [Pop(Rdi), Pop(Rax), Store(Rax, Rdi), Push(Rdi)], s1, callee).value,
                     Eval(Assign(LVar(o), rhs), Get(s, Rbp), s.mem, callee.ret).value.0,
                     Eval(Assign(LVar(o), rhs), Get(s, Rbp), s.mem, callee.ret).value.1)
  {
    EvalAssign(o, rhs, Get(s, Rbp), s.mem, callee.ret);
    AssignTail(o, cb, s, s1, callee, Eval(rhs, Get(s, Rbp), s.mem, callee.ret));
  }

  /** The same for any outcome `ev` of the right-hand side. */
  lemma AssignTail(o: int, cb: seq<Instr>, s: State, s1: State, callee: Callee, ev: Option<(int, Memory)>)
    requires Pushed(s, s1, Get(s, Rbp) - o, s.mem)
    requires Agrees(cb, s1, callee, ev)
    ensures Run(cb + [Pop(Rdi), Pop(Rax), Store(Rax, Rdi), Push(Rdi)], s1, callee).Some? <==> ev.Some?
    ensures ev.Some? ==>
              Pushed(s, Run(cb + [Pop(Rdi), Pop(Rax), Store(Rax, Rdi), Push(Rdi)], s1, callee).value,
                     ev.value.0, ev.value.1[Get(s, Rbp) - o := ev.value.0])
  {
    if ev.Some? {
      StoreAfter(cb, s, s1, Run(cb, s1, callee).value, Get(s, Rbp) - o, ev.value.0, ev.value.1, callee);
    } else {
      RunAppend(cb, [Pop(Rdi), Pop(Rax), Store(Rax, Rdi), Push(Rdi)], s1, callee);
    }
  }

  /** The store sequence after a right-hand side that pushed `v` above
      the address `addr` and left memory `m`. */
  lemma StoreAfter(cb: seq<Instr>, s: State, s1: State, s2: State, addr: int, v: int, m: Memory, callee: Callee)
    requires Run(cb, s1, callee) == Some(s2)
    requires s2.stack == s.stack + [addr, v] && s2.mem == m && Get(s2, Rbp) == Get(s, Rbp)
    ensures Run(cb + [Pop(Rdi), Pop(Rax), Store(Rax, Rdi), Push(Rdi)], s1, callee).Some?
    ensures Pushed(s, Run(cb + [Pop(Rdi), Pop(Rax), Store(Rax, Rdi), Push(Rdi)], s1, callee).value, v, m[addr := v])
  {
    RunThen(cb, [Pop(Rdi), Pop(Rax), Store(Rax, Rdi), Push(Rdi)], s1, s2, callee);
    StoreTailRun(s2, s.stack, addr, v, callee);
  }

  /** Code after a piece that ran to `t` runs from `t`. */
  lemma RunThen(a: seq<Instr>, b: seq<Instr>, s: State, t: State, callee: Callee)
    requires Run(a, s, callee) == Some(t)
    ensures Run(a + b, s, callee) == Run(b, t, callee)
  {
    RunAppend(a, b, s, callee);
  }

  lemma {:induction false} AssignCorrect(l: Node, rhs: Node, k: nat, s: State, callee: Callee)
    requires IsExpr(Assign(l, rhs)) && Gen(Assign(l, rhs), k).Success?
    ensures Agrees(Gen(Assign(l, rhs), k).value.code, s, callee, Eval(Assign(l, rhs), Get(s, Rbp), s.mem, callee.ret))
    decreases Assign(l, rhs), 0
  {
    var o := l.offset;
    var cb := Gen(rhs, k).value.code;
    var tail := [Pop(Rdi), Pop(Rax), Store(Rax, Rdi), Push(Rdi)];
    assert Gen(Assign(l, rhs), k).value.code == AddressCode(o) + (cb + tail);
    AddressRun(o, s, callee);
    var s1 := Run(AddressCode(o), s, callee).value;
    RunAppend(AddressCode(o), cb + tail, s, callee);
    ExprCorrect(rhs, k, s1, callee);
    AssignRun(o, rhs, cb, s, s1, callee);
  }

  /** Binary-operator code, given that each operand's code agrees with
      the evaluator from the state it starts in. */
  lemma BinaryRun(op: BinOp, l: Node, rhs: Node, ca: seq<Instr>, cb: seq<Instr>, s: State, callee: Callee)
    requires IsExpr(l) && IsExpr(rhs)
    requires Agrees(ca, s, callee, Eval(l, Get(s, Rbp), s.mem, callee.ret))
    requires Run(ca, s, callee).Some? ==>
               Agrees(cb, Run(ca, s, callee).value, callee, Eval(rhs, Get(s, Rbp), Run(ca, s, callee).value.mem, callee.ret))
    ensures Agrees(ca + (cb + ([Pop(Rdi), Pop(Rax)] + OpCode(op) + [Push(Rax)])), s, callee,
                   Eval(Binary(op, l, rhs), Get(s, Rbp), s.mem, callee.ret))
  {
    var frame := Get(s, Rbp);
    var tail := [Pop(Rdi), Pop(Rax)] + OpCode(op) + [Push(Rax)];
    RunAppend(ca, cb + tail, s, callee);
    if Run(ca, s, callee).Some? {
      var s1 := Run(ca, s, callee).value;
      var x := Eval(l, frame, s.mem, callee.ret).value.0;
      RunAppend(cb, tail, s1, callee);
      if Run(cb, s1, callee).Some? {
        var s2 := Run(cb, s1, callee).value;
        var y := Eval(rhs, frame, s1.mem, callee.ret).value.0;
        assert s2.stack == s.stack + [x, y];
        BinaryTailRun(op, s2, s.stack, x, y, callee);
      }
    }
  }

  /** The code of a binary operation: the left operand's, the right
      operand's, the two pops, the operator, the push. */
  lemma BinaryCode(op: BinOp, l: Node, rhs: Node, k: nat)
    requires Gen(Binary(op, l, rhs), k).Success? && Gen(l, k).Success? && Gen(l, k).value.next == k
    ensures Gen(rhs, k).Success?
    ensures Gen(Binary(op, l, rhs), k).value.code
         == Gen(l, k).value.code + (Gen(rhs, k).value.code + ([Pop(Rdi), Pop(Rax)] + OpCode(op) + [Push(Rax)]))
  {
    var ca, cb := Gen(l, k).value.code, Gen(rhs, k).value.code;
    assert ca + cb + [Pop(Rdi), Pop(Rax)] + OpCode(op) + [Push(Rax)]
        == ca + (cb + ([Pop(Rdi), Pop(Rax)] + OpCode(op) + [Push(Rax)]));
  }

  lemma {:induction false} BinaryCorrect(op: BinOp, l: Node, rhs: Node, k: nat, s: State, callee: Callee)
    requires IsExpr(Binary(op, l, rhs)) && Gen(Binary(op, l, rhs), k).Success?
    ensures Agrees(Gen(Binary(op, l, rhs), k).value.code, s, callee, Eval(Binary(op, l, rhs), Get(s, Rbp), s.mem, callee.ret))
    decreases Binary(op, l, rhs), 0
  {
    LabelFree(l, k);
    BinaryCode(op, l, rhs, k);
    var ca, cb := Gen(l, k).value.code, Gen(rhs, k).value.code;
    ExprCorrect(l, k, s, callee);
    if Run(ca, s, callee).Some? {
      ExprCorrect(rhs, k, Run(ca, s, callee).value, callee);
    }
    BinaryRun(op, l, rhs, ca, cb, s, callee);
  }

  lemma {:induction false} CallCorrect(f: string, args: seq<Node>, k: nat, s: State, callee: Callee)
    requires IsExpr(Call(f, args)) && Gen(Call(f, args), k).Success?
    ensures Agrees(Gen(Call(f, args), k).value.code, s, callee, Eval(Call(f, args), Get(s, Rbp), s.mem, callee.ret))
    decreases Call(f, args), 0
  {
    var frame := Get(s, Rbp);
    var a := GenArgs(args, 0, k).value;
    ArgsLabelFree(args, 0, k);
    var n := |args|;
    var tail := PopArgs(n) + [CallFn(f, n), Push(Rax)];
    assert Gen(Call(f, args), k).value.code == a.code + tail;
    ArgsCorrect(args, 0, k, s, callee);
    assert args[0..] == args;
    RunAppend(a.code, tail, s, callee);
    if Run(a.code, s, callee).Some? {
      var s1 := Run(a.code, s, callee).value;
      var vs := EvalArgs(args, frame, s.mem, callee.ret).value.0;
      CallTailRun(f, n, s1, s.stack, vs, callee);
    }
  }

  lemma EvalArgsCons(args: seq<Node>, frame: int, mem: Memory, ret: (string, seq<int>) -> int)
    requires |args| > 0 && AllExpr(args)
    ensures EvalArgs(args, frame, mem, ret) ==
              match Eval(args[0], frame, mem, ret)
              case None => None
              case Some((v, m1)) =>
                match EvalArgs(args[1..], frame, m1, ret)
                case None => None
                case Some((vs, m2)) => Some(([v] + vs, m2))
  {
  }

  /** One argument's code followed by the rest's, given that each agrees
      with the evaluator from the state it starts in. */
  lemma ArgsRun(args: seq<Node>, ca: seq<Instr>, cb: seq<Instr>, s: State, callee: Callee)
    requires |args| > 0 && AllExpr(args)
    requires Agrees(ca, s, callee, Eval(args[0], Get(s, Rbp), s.mem, callee.ret))
    requires Run(ca, s, callee).Some? ==>
               AgreesAll(cb, Run(ca, s, callee).value, callee,
                         EvalArgs(args[1..], Get(s, Rbp), Run(ca, s, callee).value.mem, callee.ret))
    ensures AgreesAll(ca + cb, s, callee, EvalArgs(args, Get(s, Rbp), s.mem, callee.ret))
  {
    var frame := Get(s, Rbp);
    EvalArgsCons(args, frame, s.mem, callee.ret);
    RunAppend(ca, cb, s, callee);
    if Run(ca, s, callee).Some? {
      var s1 := Run(ca, s, callee).value;
      ArgsRunAfterFirst(args, cb, s, s1, Eval(args[0], frame, s.mem, callee.ret).value.0, callee);
    }
  }

  lemma ArgsRunAfterFirst(args: seq<Node>, cb: seq<Instr>, s: State, s1: State, v: int, callee: Callee)
    requires |args| > 0 && AllExpr(args)
    requires Eval(args[0], Get(s, Rbp), s.mem, callee.ret) == Some((v, s1.mem))
    requires Pushed(s, s1, v, s1.mem)
    requires AgreesAll(cb, s1, callee, EvalArgs(args[1..], Get(s, Rbp), s1.mem, callee.ret))
    ensures (Run(cb, s1, callee).Some? <==> EvalArgs(args, Get(s, Rbp), s.mem, callee.ret).Some?)
    ensures EvalArgs(args, Get(s, Rbp), s.mem, callee.ret).Some? ==>
              var s' := Run(cb, s1, callee).value;
              && s'.stack == s.stack + EvalArgs(args, Get(s, Rbp), s.mem, callee.ret).value.0
              && s'.mem == EvalArgs(args, Get(s, Rbp), s.mem, callee.ret).value.1
              && Get(s', Rbp) == Get(s, Rbp)
  {
    var frame := Get(s, Rbp);
    EvalArgsCons(args, frame, s.mem, callee.ret);
    if Run(cb, s1, callee).Some? {
      var vs := EvalArgs(args[1..], frame, s1.mem, callee.ret).value.0;
      assert s.stack + [v] + vs == s.stack + ([v] + vs);
    }
  }

  /** The same for the argument list of a call from index `i` on: the
      argument values end up on the stack in order. */
  lemma {:induction false} ArgsCorrect(args: seq<Node>, i: nat, k: nat, s: State, callee: Callee)
    requires i <= |args| && AllExpr(args) && GenArgs(args, i, k).Success?
    ensures AgreesAll(GenArgs(args, i, k).value.code, s, callee, EvalArgs(args[i..], Get(s, Rbp), s.mem, callee.ret))
    decreases args, |args| - i
  {
    if i == |args| {
      assert args[i..] == [];
      assert s.stack + [] == s.stack;
    } else {
      LabelFree(args[i], k);
      var ca, cb := Gen(args[i], k).value.code, GenArgs(args, i + 1, k).value.code;
      assert GenArgs(args, i, k).value.code == ca + cb;
      var rest := args[i..];
      assert rest[0] == args[i] && rest[1..] == args[i + 1..];
      assert AllExpr(rest);
      ExprCorrect(args[i], k, s, callee);
      if Run(ca, s, callee).Some? {
        ArgsCorrect(args, i + 1, k, Run(ca, s, callee).value, callee);
      }
      ArgsRun(rest, ca, cb, s, callee);
    }
  }

  lemma {:induction false} PopArgsNet(n: nat)
    requires n <= |ArgRegs|
    ensures NetEffect(PopArgs(n)) + n == 0
  {
    if n > 0 {
      NetCons(Pop(ArgRegs[n - 1]), PopArgs(n - 1));
      PopArgsNet(n - 1);
    }
  }

  /** Expression code, read as text, pushes one value more than it pops,
      whatever it computes. */
  lemma {:induction false} ExprNetEffect(e: Node, k: nat)
    requires IsExpr(e) && Gen(e, k).Success?
    ensures NetEffect(Gen(e, k).value.code) == 1
    decreases e, 1
  {
    match e
    case Num(v) => NetCons(PushImm(v), []);
    case LVar(o) =>
      AddressNet(o);
      NetEffectAppend(AddressCode(o), [Pop(Rax), Load(Rax, Rax), Push(Rax)]);
      assert [Pop(Rax), Load(Rax, Rax), Push(Rax)] == [Pop(Rax)] + [Load(Rax, Rax), Push(Rax)];
      NetCons(Pop(Rax), [Load(Rax, Rax), Push(Rax)]);
      NetTwo(Load(Rax, Rax), Push(Rax));
    case Assign(l, rhs) =>
      ExprNetEffect(rhs, k);
      AssignNet(l.offset, Gen(rhs, k).value.code);
    case Binary(op, l, rhs) =>
      LabelFree(l, k);
      ExprNetEffect(l, k);
      ExprNetEffect(rhs, k);
      BinaryNet(op, Gen(l, k).value.code, Gen(rhs, k).value.code);
    case Call(f, args) =>
      ArgsNetEffect(args, 0, k);
      CallNet(f, |args|, GenArgs(args, 0, k).value.code);
  }

  lemma NetCons(i: Instr, rest: seq<Instr>)
    ensures NetEffect([i] + rest) == Effect(i) + NetEffect(rest)
  {
    assert ([i] + rest)[0] == i && ([i] + rest)[1..] == rest;
  }

  lemma NetTwo(a: Instr, b: Instr)
    ensures NetEffect([a, b]) == Effect(a) + Effect(b)
  {
    assert [a, b] == [a] + [b];
    NetCons(a, [b]);
    NetCons(b, []);
    assert [b] + [] == [b];
  }

  lemma AddressNet(o: int)
    ensures NetEffect(AddressCode(o)) == 1
  {
    assert AddressCode(o) == [Mov(Rax, Rbp)] + [SubImm(Rax, o), Push(Rax)];
    NetCons(Mov(Rax, Rbp), [SubImm(Rax, o), Push(Rax)]);
    NetTwo(SubImm(Rax, o), Push(Rax));
  }

  lemma AssignNet(o: int, cb: seq<Instr>)
    requires NetEffect(cb) == 1
    ensures NetEffect(AddressCode(o) + cb + [Pop(Rdi), Pop(Rax), Store(Rax, Rdi), Push(Rdi)]) == 1
  {
    var tail := [Pop(Rdi), Pop(Rax), Store(Rax, Rdi), Push(Rdi)];
    assert NetEffect(tail) == -1 by {
      assert tail == [Pop(Rdi), Pop(Rax)] + [Store(Rax, Rdi), Push(Rdi)];
      NetEffectAppend([Pop(Rdi), Pop(Rax)], [Store(Rax, Rdi), Push(Rdi)]);
      NetTwo(Pop(Rdi), Pop(Rax));
      NetTwo(Store(Rax, Rdi), Push(Rdi));
    }
    AddressNet(o);
    assert AddressCode(o) + cb + tail == AddressCode(o) + (cb + tail);
    NetEffectAppend(AddressCode(o), cb + tail);
    NetEffectAppend(cb, tail);
  }

  lemma OpCodeNet(op: BinOp)
    ensures NetEffect(OpCode(op)) == 0
  {
    match op
    case Add => NetCons(Arith(AddOp, Rax, Rdi), []);
    case Sub => NetCons(Arith(SubOp, Rax, Rdi), []);
    case Mul => NetCons(Arith(ImulOp, Rax, Rdi), []);
    case Div => NetTwo(Cqo, Idiv(Rdi));
    case _ =>
      var c := OpCode(op);
      assert c == [c[0]] + [c[1], c[2]];
      NetCons(c[0], [c[1], c[2]]);
      NetTwo(c[1], c[2]);
  }

  lemma BinaryNet(op: BinOp, ca: seq<Instr>, cb: seq<Instr>)
    requires NetEffect(ca) == 1 && NetEffect(cb) == 1
    ensures NetEffect(ca + cb + [Pop(Rdi), Pop(Rax)] + OpCode(op) + [Push(Rax)]) == 1
  {
    OpCodeNet(op);
    OperandsThen(OpCode(op), ca, cb);
  }

  /** Two operands, the pops of both, any balanced operator code and the
      push of its result leave one value. */
  lemma OperandsThen(oc: seq<Instr>, ca: seq<Instr>, cb: seq<Instr>)
    requires NetEffect(oc) == 0 && NetEffect(ca) == 1 && NetEffect(cb) == 1
    ensures NetEffect(ca + cb + [Pop(Rdi), Pop(Rax)] + oc + [Push(Rax)]) == 1
  {
    var ops := oc + [Push(Rax)];
    assert NetEffect(ops) == 1 by {
      NetEffectAppend(oc, [Push(Rax)]);
      NetCons(Push(Rax), []);
    }
    NetTwo(Pop(Rdi), Pop(Rax));
    assert ca + cb + [Pop(Rdi), Pop(Rax)] + oc + [Push(Rax)] == ca + (cb + ([Pop(Rdi), Pop(Rax)] + ops));
    NetEffectAppend(ca, cb + ([Pop(Rdi), Pop(Rax)] + ops));
    NetEffectAppend(cb, [Pop(Rdi), Pop(Rax)] + ops);
    NetEffectAppend([Pop(Rdi), Pop(Rax)], ops);
  }

  lemma CallNet(f: string, n: nat, ca: seq<Instr>)
    requires n <= |ArgRegs| && NetEffect(ca) == n
    ensures NetEffect(ca + PopArgs(n) + [CallFn(f, n), Push(Rax)]) == 1
  {
    PopArgsNet(n);
    NetTwo(CallFn(f, n), Push(Rax));
    assert ca + PopArgs(n) + [CallFn(f, n), Push(Rax)] == ca + (PopArgs(n) + [CallFn(f, n), Push(Rax)]);
    NetEffectAppend(ca, PopArgs(n) + [CallFn(f, n), Push(Rax)]);
    NetEffectAppend(PopArgs(n), [CallFn(f, n), Push(Rax)]);
  }

  lemma {:induction false} ArgsNetEffect(args: seq<Node>, i: nat, k: nat)
    requires i <= |args| && AllExpr(args) && GenArgs(args, i, k).Success?
    ensures NetEffect(GenArgs(args, i, k).value.code) == |args| - i
    decreases args, |args| - i
  {
    if i < |args| {
      LabelFree(args[i], k);
      ExprNetEffect(args[i], k);
      ArgsNetEffect(args, i + 1, k);
      NetEffectAppend(Gen(args[i], k).value.code, GenArgs(args, i + 1, k).value.code);
    }
  }

  /** A comparison leaves 0 or 1 on the stack. */
  lemma ComparisonIsBit(op: BinOp, l: Node, rhs: Node, k: nat, s: State, callee: Callee)
    requires IsComparison(op) && IsExpr(l) && IsExpr(rhs) && Gen(Binary(op, l, rhs), k).Success?
    ensures Run(Gen(Binary(op, l, rhs), k).value.code, s, callee).Some? <==>
              Eval(l, Get(s, Rbp), s.mem, callee.ret).Some? &&
              Eval(rhs, Get(s, Rbp), Eval(l, Get(s, Rbp), s.mem, callee.ret).value.1, callee.ret).Some?
    ensures Run(Gen(Binary(op, l, rhs), k).value.code, s, callee).Some? ==>
              var st := Run(Gen(Binary(op, l, rhs), k).value.code, s, callee).value.stack;
              |st| == |s.stack| + 1 && (st[|st| - 1] == 0 || st[|st| - 1] == 1)
  {
    ExprCorrect(Binary(op, l, rhs), k, s, callee);
  }
}
