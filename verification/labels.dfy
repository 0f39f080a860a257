/** Label discipline of the generated code: every label number the
    generator takes lies in the range it was handed, no number is defined
    twice, and every `jmp`/`je` lands on a label the same code defines. */
module GeneratorLabels {
  import opened Wrappers
  import opened Ast
  import opened Machine
  import opened Generator

  /** The numbers of the labels `code` defines. */
  function Numbers(code: seq<Instr>): set<int> {
    set i | 0 <= i < |code| && code[i].Label? :: code[i].l.n
  }

  /** The labels `code` defines. */
  function Defined(code: seq<Instr>): set<Lbl> {
    set i | 0 <= i < |code| && code[i].Label? :: code[i].l
  }

  /** The labels `code` jumps to. */
  function Targets(code: seq<Instr>): set<Lbl> {
    set i | 0 <= i < |code| && (code[i].Jmp? || code[i].Je?) :: code[i].target
  }

  /** No label number is defined twice. */
  predicate Distinct(code: seq<Instr>) {
    forall i, j | 0 <= i < j < |code| && code[i].Label? && code[j].Label? :: code[i].l.n != code[j].l.n
  }

  predicate Within(xs: set<int>, lo: int, hi: int) {
    forall x | x in xs :: lo <= x < hi
  }

  /** What the generator promises about the labels of the code it emits
      when handed the numbers from `lo` on and returning `hi` as the next
      free one. */
  predicate LabelsOk(code: seq<Instr>, lo: int, hi: int) {
    Within(Numbers(code), lo, hi) && Distinct(code) && Targets(code) <= Defined(code)
  }

  /** Code with no labels and no jumps. */
  predicate Plain(code: seq<Instr>) {
    forall i | 0 <= i < |code| :: !code[i].Label? && !code[i].Jmp? && !code[i].Je?
  }

  lemma PlainSets(code: seq<Instr>)
    requires Plain(code)
    ensures Numbers(code) == {} && Defined(code) == {} && Targets(code) == {} && Distinct(code)
  {
    assert forall x | x in Numbers(code) :: false;
    assert forall x | x in Defined(code) :: false;
    assert forall x | x in Targets(code) :: false;
  }

  lemma {:induction false} AppendSets(a: seq<Instr>, b: seq<Instr>)
    ensures Numbers(a + b) == Numbers(a) + Numbers(b)
    ensures Defined(a + b) == Defined(a) + Defined(b)
    ensures Targets(a + b) == Targets(a) + Targets(b)
  {
    var c := a + b;
    forall x | x in Numbers(c) ensures x in Numbers(a) + Numbers(b) {
      var i :| 0 <= i < |c| && c[i].Label? && c[i].l.n == x;
      if i < |a| { assert c[i] == a[i]; } else { assert c[i] == b[i - |a|]; }
    }
    forall x | x in Numbers(a) + Numbers(b) ensures x in Numbers(c) {
      if x in Numbers(a) {
        var i :| 0 <= i < |a| && a[i].Label? && a[i].l.n == x;
        assert c[i] == a[i];
      } else {
        var i :| 0 <= i < |b| && b[i].Label? && b[i].l.n == x;
        assert c[i + |a|] == b[i];
      }
    }
    forall x | x in Defined(c) ensures x in Defined(a) + Defined(b) {
      var i :| 0 <= i < |c| && c[i].Label? && c[i].l == x;
      if i < |a| { assert c[i] == a[i]; } else { assert c[i] == b[i - |a|]; }
    }
    forall x | x in Defined(a) + Defined(b) ensures x in Defined(c) {
      if x in Defined(a) {
        var i :| 0 <= i < |a| && a[i].Label? && a[i].l == x;
        assert c[i] == a[i];
      } else {
        var i :| 0 <= i < |b| && b[i].Label? && b[i].l == x;
        assert c[i + |a|] == b[i];
      }
    }
    forall x | x in Targets(c) ensures x in Targets(a) + Targets(b) {
      var i :| 0 <= i < |c| && (c[i].Jmp? || c[i].Je?) && c[i].target == x;
      if i < |a| { assert c[i] == a[i]; } else { assert c[i] == b[i - |a|]; }
    }
    forall x | x in Targets(a) + Targets(b) ensures x in Targets(c) {
      if x in Targets(a) {
        var i :| 0 <= i < |a| && (a[i].Jmp? || a[i].Je?) && a[i].target == x;
        assert c[i] == a[i];
      } else {
        var i :| 0 <= i < |b| && (b[i].Jmp? || b[i].Je?) && b[i].target == x;
        assert c[i + |a|] == b[i];
      }
    }
  }

  /** Two pieces whose label numbers do not overlap define no number
      twice between them. */
  lemma {:induction false} AppendDistinct(a: seq<Instr>, b: seq<Instr>)
    requires Distinct(a) && Distinct(b) && Numbers(a) !! Numbers(b)
    ensures Distinct(a + b)
  {
    var c := a + b;
    forall i, j | 0 <= i < j < |c| && c[i].Label? && c[j].Label?
      ensures c[i].l.n != c[j].l.n
    {
      if j < |a| {
        assert c[i] == a[i] && c[j] == a[j];
      } else if i >= |a| {
        assert c[i] == b[i - |a|] && c[j] == b[j - |a|];
      } else {
        assert c[i] == a[i] && c[j] == b[j - |a|];
        assert c[i].l.n in Numbers(a);
        assert c[j].l.n in Numbers(b);
      }
    }
  }

  /** Everything about appending in one call. */
  lemma Append(a: seq<Instr>, b: seq<Instr>)
    ensures Numbers(a + b) == Numbers(a) + Numbers(b)
    ensures Defined(a + b) == Defined(a) + Defined(b)
    ensures Targets(a + b) == Targets(a) + Targets(b)
    ensures Distinct(a) && Distinct(b) && Numbers(a) !! Numbers(b) ==> Distinct(a + b)
  {
    AppendSets(a, b);
    if Distinct(a) && Distinct(b) && Numbers(a) !! Numbers(b) {
      AppendDistinct(a, b);
    }
  }

  lemma LabelPiece(l: Lbl)
    ensures Numbers([Label(l)]) == {l.n} && Defined([Label(l)]) == {l} && Targets([Label(l)]) == {}
    ensures Distinct([Label(l)])
  {
    assert [Label(l)][0] == Label(l);
  }

  lemma JumpPiece(i: Instr)
    requires i.Jmp? || i.Je?
    ensures Numbers([i]) == {} && Defined([i]) == {} && Targets([i]) == {i.target} && Distinct([i])
  {
    assert [i][0] == i;
  }

  lemma TestPiece(t: Lbl)
    ensures Numbers(TestZero(t)) == {} && Defined(TestZero(t)) == {} && Targets(TestZero(t)) == {t}
    ensures Distinct(TestZero(t))
  {
    assert TestZero(t) == [Pop(Rax), CmpImm(Rax, 0)] + [Je(t)];
    PlainSets([Pop(Rax), CmpImm(Rax, 0)]);
    JumpPiece(Je(t));
    Append([Pop(Rax), CmpImm(Rax, 0)], [Je(t)]);
  }

  lemma BackPiece(back: Lbl, out: Lbl)
    ensures Numbers([Jmp(back), Label(out)]) == {out.n} && Defined([Jmp(back), Label(out)]) == {out}
    ensures Targets([Jmp(back), Label(out)]) == {back} && Distinct([Jmp(back), Label(out)])
  {
    assert [Jmp(back), Label(out)] == [Jmp(back)] + [Label(out)];
    JumpPiece(Jmp(back));
    LabelPiece(out);
    Append([Jmp(back)], [Label(out)]);
  }

  lemma ThenPlain(a: seq<Instr>, p: seq<Instr>, lo: int, hi: int)
    requires LabelsOk(a, lo, hi) && Plain(p)
    ensures LabelsOk(a + p, lo, hi)
  {
    PlainSets(p);
    Append(a, p);
  }

  lemma PlainThen(p: seq<Instr>, a: seq<Instr>, lo: int, hi: int)
    requires Plain(p) && LabelsOk(a, lo, hi)
    ensures LabelsOk(p + a, lo, hi)
  {
    PlainSets(p);
    Append(p, a);
  }

  /** Two pieces generated one after the other, the second taking its
      numbers from where the first stopped. */
  lemma Then(a: seq<Instr>, b: seq<Instr>, lo: int, mid: int, hi: int)
    requires lo <= mid <= hi
    requires LabelsOk(a, lo, mid) && LabelsOk(b, mid, hi)
    ensures LabelsOk(a + b, lo, hi)
  {
    Append(a, b);
  }

  lemma NoneOk(k: int)
    ensures LabelsOk([], k, k)
  {
    PlainSets([]);
  }

  /** Labels of generated code: numbers from the range handed in, none
      defined twice, every jump target defined in the same code. */
  lemma {:induction false} GenLabels(n: Node, k: nat)
    requires Gen(n, k).Success?
    ensures LabelsOk(Gen(n, k).value.code, k, Gen(n, k).value.next)
    decreases n, 2
  {
    match n
    case Num(v) => PlainSets([PushImm(v)]);
    case LVar(o) => PlainSets(AddressCode(o) + [Pop(Rax), Load(Rax, Rax), Push(Rax)]);
    case Assign(l, rhs) => AssignLabels(l, rhs, k);
    case Call(f, args) => CallLabels(f, args, k);
    case Func(name, params, stmts) => FuncLabels(name, params, stmts, k);
    case Block(stmts) => StmtsLabels(stmts, k);
    case Return(e) => ReturnLabels(e, k);
    case If(c, t, f) => IfLabels(c, t, f, k);
    case While(c, body) => WhileLabels(c, body, k);
    case For(init, guard, after, body) => ForLabels(init, guard, after, body, k);
    case Binary(op, l, rhs) => BinaryLabels(op, l, rhs, k);
  }

  lemma {:induction false} AssignLabels(l: Node, rhs: Node, k: nat)
    requires Gen(Assign(l, rhs), k).Success?
    ensures LabelsOk(Gen(Assign(l, rhs), k).value.code, k, Gen(Assign(l, rhs), k).value.next)
    decreases Assign(l, rhs), 1
  {
    var b := Gen(rhs, k).value;
    GenLabels(rhs, k);
    PlainThen(AddressCode(l.offset), b.code, k, b.next);
    ThenPlain(AddressCode(l.offset) + b.code, [Pop(Rdi), Pop(Rax), Store(Rax, Rdi), Push(Rdi)], k, b.next);
  }

  lemma {:induction false} CallLabels(f: string, args: seq<Node>, k: nat)
    requires Gen(Call(f, args), k).Success?
    ensures LabelsOk(Gen(Call(f, args), k).value.code, k, Gen(Call(f, args), k).value.next)
    decreases Call(f, args), 1
  {
    var a := GenArgs(args, 0, k).value;
    ArgsLabels(args, 0, k);
    ThenPlain(a.code, PopArgs(|args|), k, a.next);
    ThenPlain(a.code + PopArgs(|args|), [CallFn(f, |args|), Push(Rax)], k, a.next);
  }

  lemma {:induction false} FuncLabels(name: string, params: seq<Node>, stmts: seq<Node>, k: nat)
    requires Gen(Func(name, params, stmts), k).Success?
    ensures LabelsOk(Gen(Func(name, params, stmts), k).value.code, k, Gen(Func(name, params, stmts), k).value.next)
    decreases Func(name, params, stmts), 1
  {
    var p := GenParams(params, 0).value;
    var b := GenStmts(stmts, k).value;
    ParamsPlain(params, 0);
    StmtsLabels(stmts, k);
    var head := [FuncLabel(name)] + Prologue + p;
    assert Plain(head) by {
      assert head == [FuncLabel(name), Push(Rbp), Mov(Rbp, Rsp), SubImm(Rsp, 208)] + p;
    }
    PlainThen(head, b.code, k, b.next);
    ThenPlain(head + b.code, Epilogue, k, b.next);
  }

  lemma {:induction false} ReturnLabels(e: Node, k: nat)
    requires Gen(Return(e), k).Success?
    ensures LabelsOk(Gen(Return(e), k).value.code, k, Gen(Return(e), k).value.next)
    decreases Return(e), 1
  {
    var a := Gen(e, k).value;
    GenLabels(e, k);
    ThenPlain(a.code, [Pop(Rax)] + Epilogue, k, a.next);
    assert a.code + [Pop(Rax)] + Epilogue == a.code + ([Pop(Rax)] + Epilogue);
  }

  lemma {:induction false} BinaryLabels(op: BinOp, l: Node, rhs: Node, k: nat)
    requires Gen(Binary(op, l, rhs), k).Success?
    ensures LabelsOk(Gen(Binary(op, l, rhs), k).value.code, k, Gen(Binary(op, l, rhs), k).value.next)
    decreases Binary(op, l, rhs), 1
  {
    var a := Gen(l, k).value;
    var b := Gen(rhs, a.next).value;
    GenLabels(l, k);
    GenLabels(rhs, a.next);
    Then(a.code, b.code, k, a.next, b.next);
    var tail := [Pop(Rdi), Pop(Rax)] + OpCode(op) + [Push(Rax)];
    ThenPlain(a.code + b.code, tail, k, b.next);
    assert Gen(Binary(op, l, rhs), k).value.code == a.code + b.code + tail;
  }

  lemma {:induction false} OptionalLabels(n: Option<Node>, k: nat)
    requires GenOptional(n, k).Success?
    ensures LabelsOk(GenOptional(n, k).value.code, k, GenOptional(n, k).value.next)
    decreases n, 3
  {
    if n.Some? {
      GenLabels(n.value, k);
    } else {
      NoneOk(k);
    }
  }

  lemma {:induction false} StmtsLabels(ss: seq<Node>, k: nat)
    requires GenStmts(ss, k).Success?
    ensures LabelsOk(GenStmts(ss, k).value.code, k, GenStmts(ss, k).value.next)
    decreases ss
  {
    if |ss| == 0 {
      NoneOk(k);
    } else {
      var a := Gen(ss[0], k).value;
      var b := GenStmts(ss[1..], a.next).value;
      GenLabels(ss[0], k);
      StmtsLabels(ss[1..], a.next);
      ThenPlain(a.code, [Pop(Rax)], k, a.next);
      Then(a.code + [Pop(Rax)], b.code, k, a.next, b.next);
    }
  }

  lemma {:induction false} ArgsLabels(args: seq<Node>, i: nat, k: nat)
    requires i <= |args| && GenArgs(args, i, k).Success?
    ensures LabelsOk(GenArgs(args, i, k).value.code, k, GenArgs(args, i, k).value.next)
    decreases args, |args| - i
  {
    if i == |args| {
      NoneOk(k);
    } else {
      var a := Gen(args[i], k).value;
      GenLabels(args[i], k);
      ArgsLabels(args, i + 1, a.next);
      Then(a.code, GenArgs(args, i + 1, a.next).value.code, k, a.next, GenArgs(args, i + 1, a.next).value.next);
    }
  }

  lemma {:induction false} ParamsPlain(params: seq<Node>, i: nat)
    requires i <= |params| && GenParams(params, i).Success?
    ensures Plain(GenParams(params, i).value)
    decreases |params| - i
  {
    if i < |params| {
      ParamsPlain(params, i + 1);
      var reg := ArgRegister(i).value;
      var a := AddressCode(params[i].offset) + [Pop(Rax), Store(Rax, reg)];
      var b := GenParams(params, i + 1).value;
      assert GenParams(params, i).value == a + b;
      assert forall j | 0 <= j < |a + b| :: (a + b)[j] == if j < |a| then a[j] else b[j - |a|];
    }
  }

  /** The shape of a `while` loop's code. */
  lemma WhileShape(cc: seq<Instr>, bb: seq<Instr>, k: nat, c: int, b: int)
    requires k + 2 <= c <= b
    requires LabelsOk(cc, k + 2, c) && LabelsOk(bb, c, b)
    ensures LabelsOk([Label(Lbl(Lbegin, k))] + cc + TestZero(Lbl(Lend, k + 1)) + bb + [Jmp(Lbl(Lbegin, k)), Label(Lbl(Lend, k + 1))], k, b)
  {
    var lbegin, lend := Lbl(Lbegin, k), Lbl(Lend, k + 1);
    LabelPiece(lbegin);
    TestPiece(lend);
    BackPiece(lbegin, lend);
    var x1 := [Label(lbegin)] + cc;
    Append([Label(lbegin)], cc);
    assert LabelsOk(x1, k, c) && lend.n !in Numbers(x1);
    var x2 := x1 + TestZero(lend);
    Append(x1, TestZero(lend));
    assert Within(Numbers(x2), k, c) && Distinct(x2) && Targets(x2) <= Defined(x2) + {lend};
    var x3 := x2 + bb;
    Append(x2, bb);
    assert Within(Numbers(x3), k, b) && Distinct(x3) && Targets(x3) <= Defined(x3) + {lend};
    assert k + 1 !in Numbers(x3);
    var x4 := x3 + [Jmp(lbegin), Label(lend)];
    Append(x3, [Jmp(lbegin), Label(lend)]);
  }

  lemma {:induction false} WhileLabels(c: Node, body: Node, k: nat)
    requires Gen(While(c, body), k).Success?
    ensures LabelsOk(Gen(While(c, body), k).value.code, k, Gen(While(c, body), k).value.next)
    decreases While(c, body), 0
  {
    var cc := Gen(c, k + 2).value;
    var bb := Gen(body, cc.next).value;
    GenLabels(c, k + 2);
    GenLabels(body, cc.next);
    WhileShape(cc.code, bb.code, k, cc.next, bb.next);
  }

  /** The shape of an `if` with an `else` branch. */
  lemma IfElseShape(cc: seq<Instr>, tt: seq<Instr>, ff: seq<Instr>, k: nat, c: nat, t: int, f: int)
    requires k <= c && c + 2 <= t <= f
    requires LabelsOk(cc, k, c) && LabelsOk(tt, c + 2, t) && LabelsOk(ff, t, f)
    ensures LabelsOk(cc + TestZero(Lbl(DotLelse, c)) + tt + [Jmp(Lbl(DotLend, c + 1)), Label(Lbl(DotLelse, c))] + ff + [Label(Lbl(DotLend, c + 1))], k, f)
  {
    IfElseFront(cc, tt, k, c, t);
    IfElseBack(cc + TestZero(Lbl(DotLelse, c)) + tt, ff, k, c, t, f);
  }

  /** The condition, its test and the `then` branch: numbers in `[k, t)`
      except the two the `if` keeps for itself, and only the `else` label
      still missing. */
  lemma IfElseFront(cc: seq<Instr>, tt: seq<Instr>, k: nat, c: nat, t: int)
    requires k <= c && c + 2 <= t
    requires LabelsOk(cc, k, c) && LabelsOk(tt, c + 2, t)
    ensures var x := cc + TestZero(Lbl(DotLelse, c)) + tt;
      && Within(Numbers(x), k, t) && c !in Numbers(x) && c + 1 !in Numbers(x) && Distinct(x)
      && Targets(x) <= Defined(x) + {Lbl(DotLelse, c)}
  {
    var lelse := Lbl(DotLelse, c);
    TestPiece(lelse);
    var x1 := cc + TestZero(lelse);
    Append(cc, TestZero(lelse));
    assert Within(Numbers(x1), k, c) && Distinct(x1) && Targets(x1) <= Defined(x1) + {lelse};
    Append(x1, tt);
  }

  /** The jump over the `else` branch, its label, the branch and the end
      label complete the `if`. */
  lemma IfElseBack(x: seq<Instr>, ff: seq<Instr>, k: nat, c: nat, t: int, f: int)
    requires k <= c && c + 2 <= t <= f
    requires Within(Numbers(x), k, t) && c !in Numbers(x) && c + 1 !in Numbers(x) && Distinct(x)
    requires Targets(x) <= Defined(x) + {Lbl(DotLelse, c)}
    requires LabelsOk(ff, t, f)
    ensures LabelsOk(x + [Jmp(Lbl(DotLend, c + 1)), Label(Lbl(DotLelse, c))] + ff + [Label(Lbl(DotLend, c + 1))], k, f)
  {
    var lelse, lend := Lbl(DotLelse, c), Lbl(DotLend, c + 1);
    BackPiece(lend, lelse);
    LabelPiece(lend);
    var x3 := x + [Jmp(lend), Label(lelse)];
    Append(x, [Jmp(lend), Label(lelse)]);
    assert Within(Numbers(x3), k, t) && Distinct(x3) && Targets(x3) <= Defined(x3) + {lend};
    assert c + 1 !in Numbers(x3);
    var x4 := x3 + ff;
    Append(x3, ff);
    assert Within(Numbers(x4), k, f) && Distinct(x4) && Targets(x4) <= Defined(x4) + {lend};
    assert c + 1 !in Numbers(x4);
    Append(x4, [Label(lend)]);
  }

  /** The shape of an `if` without an `else` branch. */
  lemma IfShape(cc: seq<Instr>, tt: seq<Instr>, k: nat, c: nat, t: int)
    requires k <= c && c + 1 <= t
    requires LabelsOk(cc, k, c) && LabelsOk(tt, c + 1, t)
    ensures LabelsOk(cc + TestZero(Lbl(DotLend, c)) + tt + [Label(Lbl(DotLend, c))], k, t)
  {
    var lend := Lbl(DotLend, c);
    TestPiece(lend);
    LabelPiece(lend);
    var x1 := cc + TestZero(lend);
    Append(cc, TestZero(lend));
    assert Within(Numbers(x1), k, c) && Distinct(x1) && Targets(x1) <= Defined(x1) + {lend};
    var x2 := x1 + tt;
    Append(x1, tt);
    assert Within(Numbers(x2), k, t) && Distinct(x2) && Targets(x2) <= Defined(x2) + {lend};
    assert c !in Numbers(x2);
    Append(x2, [Label(lend)]);
  }

  lemma {:induction false} IfLabels(c: Node, t: Node, f: Option<Node>, k: nat)
    requires Gen(If(c, t, f), k).Success?
    ensures LabelsOk(Gen(If(c, t, f), k).value.code, k, Gen(If(c, t, f), k).value.next)
    decreases If(c, t, f), 1
  {
    var cc := Gen(c, k).value;
    GenLabels(c, k);
    if f.Some? {
      IfElseParts(c, t, f.value, k);
      var tt := Gen(t, cc.next + 2).value;
      var ff := Gen(f.value, tt.next).value;
      IfElseLabels(c, t, f.value, k, cc, tt, ff);
      IfElseCode(c, t, f.value, k, cc, tt, ff);
    } else {
      var tt := Gen(t, cc.next + 1).value;
      GenLabels(t, cc.next + 1);
      IfShape(cc.code, tt.code, k, cc.next, tt.next);
    }
  }

  lemma IfElseParts(c: Node, t: Node, f: Node, k: nat)
    requires Gen(If(c, t, Some(f)), k).Success?
    ensures Gen(c, k).Success? && Gen(t, Gen(c, k).value.next + 2).Success?
    ensures Gen(f, Gen(t, Gen(c, k).value.next + 2).value.next).Success?
  {
  }

  lemma {:induction false} IfElseLabels(c: Node, t: Node, f: Node, k: nat, cc: Emitted, tt: Emitted, ff: Emitted)
    requires Gen(t, cc.next + 2) == Success(tt) && Gen(f, tt.next) == Success(ff)
    requires k <= cc.next && LabelsOk(cc.code, k, cc.next)
    ensures LabelsOk(cc.code + TestZero(Lbl(DotLelse, cc.next)) + tt.code + [Jmp(Lbl(DotLend, cc.next + 1)), Label(Lbl(DotLelse, cc.next))]
        + ff.code + [Label(Lbl(DotLend, cc.next + 1))], k, ff.next)
    decreases If(c, t, Some(f)), 0
  {
    GenLabelsOf(t, cc.next + 2, tt);
    GenLabelsOf(f, tt.next, ff);
    IfElseShape(cc.code, tt.code, ff.code, k, cc.next, tt.next, ff.next);
  }

  /** `GenLabels` stated for a known result. */
  lemma GenLabelsOf(n: Node, k: nat, e: Emitted)
    requires Gen(n, k) == Success(e)
    ensures k <= e.next && LabelsOk(e.code, k, e.next)
    decreases n, 3
  {
    GenLabels(n, k);
  }

  /** The code of an `if` with an `else` branch, from its parts'. */
  lemma IfElseCode(c: Node, t: Node, f: Node, k: nat, cc: Emitted, tt: Emitted, ff: Emitted)
    requires Gen(c, k) == Success(cc) && Gen(t, cc.next + 2) == Success(tt) && Gen(f, tt.next) == Success(ff)
    ensures Gen(If(c, t, Some(f)), k) == Success(Emitted(
      cc.code + TestZero(Lbl(DotLelse, cc.next)) + tt.code + [Jmp(Lbl(DotLend, cc.next + 1)), Label(Lbl(DotLelse, cc.next))]
        + ff.code + [Label(Lbl(DotLend, cc.next + 1))], ff.next))
  {
  }

  /** Labels are fine except for jumps to `pending`, defined later on. */
  predicate OpenOk(code: seq<Instr>, lo: int, hi: int, pending: Lbl) {
    Within(Numbers(code), lo, hi) && Distinct(code) && Targets(code) <= Defined(code) + {pending}
  }

  /** The test of a `for` loop: the condition and a jump out, or nothing. */
  lemma ForTest(cc: seq<Instr>, guarded: bool, lend: Lbl, lo: int, hi: int)
    requires lo <= hi && LabelsOk(cc, lo, hi) && (!guarded ==> cc == [])
    ensures OpenOk(if guarded then cc + TestZero(lend) else [], lo, hi, lend)
  {
    TestPiece(lend);
    Append(cc, TestZero(lend));
    PlainSets([]);
  }

  /** The shape of a `for` loop's code. */
  lemma ForShape(ii: seq<Instr>, test: seq<Instr>, bb: seq<Instr>, aa: seq<Instr>, k: nat, i: int, c: int, b: int, a: int)
    requires k + 2 <= i <= c <= b <= a
    requires LabelsOk(ii, k + 2, i) && OpenOk(test, i, c, Lbl(Lend, k + 1))
    requires LabelsOk(bb, c, b) && LabelsOk(aa, b, a)
    ensures LabelsOk(ii + [Label(Lbl(Lbegin, k))] + test + bb + aa + [Jmp(Lbl(Lbegin, k)), Label(Lbl(Lend, k + 1))], k, a)
  {
    var lbegin, lend := Lbl(Lbegin, k), Lbl(Lend, k + 1);
    LabelPiece(lbegin);
    BackPiece(lbegin, lend);
    var x1 := ii + [Label(lbegin)];
    Append(ii, [Label(lbegin)]);
    assert LabelsOk(x1, k, i) && k + 1 !in Numbers(x1);
    var x2 := x1 + test;
    Append(x1, test);
    assert OpenOk(x2, k, c, lend) && k + 1 !in Numbers(x2);
    Then(bb, aa, c, b, a);
    var x3 := x2 + (bb + aa);
    Append(x2, bb + aa);
    assert OpenOk(x3, k, a, lend) && k + 1 !in Numbers(x3);
    assert x2 + bb + aa == x3;
    Append(x3, [Jmp(lbegin), Label(lend)]);
  }

  lemma {:induction false} ForLabels(init: Option<Node>, guard: Option<Node>, after: Option<Node>, body: Node, k: nat)
    requires Gen(For(init, guard, after, body), k).Success?
    ensures LabelsOk(Gen(For(init, guard, after, body), k).value.code, k, Gen(For(init, guard, after, body), k).value.next)
    decreases For(init, guard, after, body), 0
  {
    var ii := GenOptional(init, k + 2).value;
    var cc := GenOptional(guard, ii.next).value;
    var bb := Gen(body, cc.next).value;
    var aa := GenOptional(after, bb.next).value;
    OptionalLabels(init, k + 2);
    OptionalLabels(guard, ii.next);
    GenLabels(body, cc.next);
    OptionalLabels(after, bb.next);
    ForTest(cc.code, guard.Some?, Lbl(Lend, k + 1), ii.next, cc.next);
    var test := if guard.Some? then cc.code + TestZero(Lbl(Lend, k + 1)) else [];
    ForShape(ii.code, test, bb.code, aa.code, k, ii.next, cc.next, bb.next, aa.next);
  }

  lemma DefinedNumbered(code: seq<Instr>, l: Lbl)
    requires l in Defined(code)
    ensures l.n in Numbers(code)
  {
    var i :| 0 <= i < |code| && code[i].Label? && code[i].l == l;
  }

  /** Code whose labels are fine and numbered in `[lo, hi)` never jumps
      to a label numbered outside that range. */
  lemma NoJumpOutside(code: seq<Instr>, lo: int, hi: int, l: Lbl)
    requires LabelsOk(code, lo, hi) && !(lo <= l.n < hi)
    ensures l !in Targets(code)
  {
    if l in Targets(code) {
      DefinedNumbered(code, l);
    }
  }

  lemma ForExitShape(ii: seq<Instr>, cc: seq<Instr>, guarded: bool, bb: seq<Instr>, aa: seq<Instr>, k: nat, i: int, c: int, b: int, a: int)
    requires k + 2 <= i <= c <= b <= a
    requires LabelsOk(ii, k + 2, i) && LabelsOk(cc, i, c) && LabelsOk(bb, c, b) && LabelsOk(aa, b, a)
    ensures var lend := Lbl(Lend, k + 1);
      var test := if guarded then cc + TestZero(lend) else [];
      lend in Targets(ii + [Label(Lbl(Lbegin, k))] + test + bb + aa + [Jmp(Lbl(Lbegin, k)), Label(lend)]) <==> guarded
  {
    var lbegin, lend := Lbl(Lbegin, k), Lbl(Lend, k + 1);
    var test := if guarded then cc + TestZero(lend) else [];
    NoJumpOutside(ii, k + 2, i, lend);
    NoJumpOutside(cc, i, c, lend);
    NoJumpOutside(bb, c, b, lend);
    NoJumpOutside(aa, b, a, lend);
    TestPiece(lend);
    AppendSets(cc, TestZero(lend));
    PlainSets([]);
    assert lend in Targets(test) <==> guarded;
    LabelPiece(lbegin);
    BackPiece(lbegin, lend);
    var x1 := ii + [Label(lbegin)];
    AppendSets(ii, [Label(lbegin)]);
    var x2 := x1 + test;
    AppendSets(x1, test);
    var x3 := x2 + bb;
    AppendSets(x2, bb);
    var x4 := x3 + aa;
    AppendSets(x3, aa);
    AppendSets(x4, [Jmp(lbegin), Label(lend)]);
  }

  /** A `for` loop jumps to its end label exactly when it has a condition:
      with the condition left out, nothing in the loop's code leaves it. */
  lemma {:induction false} ForExit(init: Option<Node>, guard: Option<Node>, after: Option<Node>, body: Node, k: nat)
    requires Gen(For(init, guard, after, body), k).Success?
    ensures Lbl(Lend, k + 1) in Targets(Gen(For(init, guard, after, body), k).value.code) <==> guard.Some?
  {
    var ii := GenOptional(init, k + 2).value;
    var cc := GenOptional(guard, ii.next).value;
    var bb := Gen(body, cc.next).value;
    var aa := GenOptional(after, bb.next).value;
    OptionalLabels(init, k + 2);
    OptionalLabels(guard, ii.next);
    GenLabels(body, cc.next);
    OptionalLabels(after, bb.next);
    ForExitShape(ii.code, cc.code, guard.Some?, bb.code, aa.code, k, ii.next, cc.next, bb.next, aa.next);
  }

  lemma {:induction false} AllLabels(nodes: seq<Node>, k: nat)
    requires GenAll(nodes, k).Success?
    ensures LabelsOk(GenAll(nodes, k).value.code, k, GenAll(nodes, k).value.next)
    decreases nodes
  {
    if |nodes| == 0 {
      NoneOk(k);
    } else {
      var a := Gen(nodes[0], k).value;
      var b := GenAll(nodes[1..], a.next).value;
      GenLabels(nodes[0], k);
      AllLabels(nodes[1..], a.next);
      Then(a.code, b.code, k, a.next, b.next);
    }
  }

  /** The program the generator emits defines no numbered label twice
      and jumps only to labels it defines. Function labels are not
      numbered, and nothing keeps them apart (see
      `DuplicateFunctionLabel`). */
  lemma ProgramLabels(nodes: seq<Node>)
    requires GenerateCode(nodes).Success?
    ensures Distinct(GenerateCode(nodes).value)
    ensures Targets(GenerateCode(nodes).value) <= Defined(GenerateCode(nodes).value)
  {
    AllLabels(nodes, 0);
    PlainThen(Directives, GenAll(nodes, 0).value.code, 0, GenAll(nodes, 0).value.next);
  }

  /** Two functions of the same name each emit their `name:` label: the
      generator does not check names, and neither does the parser. */
  lemma DuplicateFunctionLabel()
    ensures var code := GenerateCode([Func("f", [], []), Func("f", [], [])]);
      && code.Success?
      && code.value[2] == FuncLabel("f")
      && code.value[2 + 1 + |Prologue| + |Epilogue|] == FuncLabel("f")
  {
    var one := [FuncLabel("f")] + Prologue + [] + [] + Epilogue;
    assert Gen(Func("f", [], []), 0) == Success(Emitted(one, 0));
    var nodes := [Func("f", [], []), Func("f", [], [])];
    assert nodes[1..] == [Func("f", [], [])] && nodes[1..][1..] == [];
    assert GenAll(nodes, 0).value.code == one + (one + []);
  }
}
