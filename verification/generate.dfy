/** The code generator: a stack-machine walk of the tree emitting x86-64
    instructions. Every expression leaves its value pushed on the stack;
    statements are followed by a `pop rax` where a list of them is
    generated. The label counter is threaded through explicitly: each
    generator call takes the next free number and returns the next free
    number after it. */
module Generator {
  import opened Wrappers
  import opened Ast
  import opened Machine

  /** Generated code and the next free label number. */
  datatype Emitted = Emitted(code: seq<Instr>, next: nat)

  const TooManyArgs := Fatal("up to 6 arguments can be used")
  const NotLeftValue := Fatal("not left value")

  /** What happens when the generator reaches a node kind it has no case
      for (`int`, `deref`, `addr`): it recurses into a child that does
      not exist and the run-time throws. */
  const NoOperands := Fatal("cannot read properties of undefined")

  const Prologue: seq<Instr> := [Push(Rbp), Mov(Rbp, Rsp), SubImm(Rsp, 208)]
  const Epilogue: seq<Instr> := [Mov(Rsp, Rbp), Pop(Rbp), Ret]

  /** The register the `i`-th argument travels in. */
  function ArgRegister(i: nat): (r: Result<Reg>)
    ensures r.Success? <==> i < |ArgRegs|
    ensures r.Success? ==> r.value == ArgRegs[i]
    ensures r.Failure? ==> r.error == TooManyArgs
  {
    if i > 5 then Failure(TooManyArgs) else Success(ArgRegs[i])
  }

  /** Pushes the address of the local at `offset` below the frame base. */
  function AddressCode(offset: int): seq<Instr> {
    [Mov(Rax, Rbp), SubImm(Rax, offset), Push(Rax)]
  }

  /** The code that pushes the address of an assignable node: only a
      variable is one. */
  function GenLval(n: Node): (r: Result<seq<Instr>>)
    ensures r.Success? <==> n.LVar?
    ensures r.Failure? ==> r.error == NotLeftValue
  {
    if n.LVar? then Success(AddressCode(n.offset)) else Failure(NotLeftValue)
  }

  /** The instructions that combine `rax` (left operand) and `rdi` (right
      operand) into `rax`. */
  function OpCode(op: BinOp): seq<Instr> {
    match op
    case Add => [Arith(AddOp, Rax, Rdi)]
    case Sub => [Arith(SubOp, Rax, Rdi)]
    case Mul => [Arith(ImulOp, Rax, Rdi)]
    case Div => [Cqo, Idiv(Rdi)]
    case Equ => [Cmp(Rax, Rdi), Set(E), Movzb(Rax, Al)]
    case Neq => [Cmp(Rax, Rdi), Set(Ne), Movzb(Rax, Al)]
    case Lss => [Cmp(Rax, Rdi), Set(L), Movzb(Rax, Al)]
    case Leq => [Cmp(Rax, Rdi), Set(Le), Movzb(Rax, Al)]
  }

  /** Pops the top `k` stack values into the first `k` argument registers,
      the last argument first. */
  function PopArgs(k: nat): (code: seq<Instr>)
    requires k <= |ArgRegs|
    ensures |code| == k
    ensures forall i | 0 <= i < k :: code[i] == Pop(ArgRegs[k - 1 - i])
  {
    if k == 0 then [] else [Pop(ArgRegs[k - 1])] + PopArgs(k - 1)
  }

  /** The condition test of `if`, `while` and `for`: pops the condition
      and jumps to `target` when it is zero. */
  function TestZero(target: Lbl): seq<Instr> {
    [Pop(Rax), CmpImm(Rax, 0), Je(target)]
  }

  function Gen(n: Node, k: nat): (r: Result<Emitted>)
    ensures r.Success? ==> k <= r.value.next
  {
    match n
    case Num(v) => Success(Emitted([PushImm(v)], k))
    case LVar(o) => Success(Emitted(AddressCode(o) + [Pop(Rax), Load(Rax, Rax), Push(Rax)], k))
    case Assign(l, rhs) =>
      var a :- GenLval(l);
      var b :- Gen(rhs, k);
      Success(Emitted(a + b.code + [Pop(Rdi), Pop(Rax), Store(Rax, Rdi), Push(Rdi)], b.next))
    case Call(f, args) =>
      var a :- GenArgs(args, 0, k);
      Success(Emitted(a.code + PopArgs(|args|) + [CallFn(f, |args|), Push(Rax)], a.next))
    case Func(name, params, stmts) =>
      var p :- GenParams(params, 0);
      var b :- GenStmts(stmts, k);
      Success(Emitted([FuncLabel(name)] + Prologue + p + b.code + Epilogue, b.next))
    case Block(stmts) => GenStmts(stmts, k)
    case Return(e) =>
      var a :- Gen(e, k);
      Success(Emitted(a.code + [Pop(Rax)] + Epilogue, a.next))
    case If(c, t, f) =>
      var cc :- Gen(c, k);
      if f.Some? then
        var lelse, lend := Lbl(DotLelse, cc.next), Lbl(DotLend, cc.next + 1);
        var tt :- Gen(t, cc.next + 2);
        var ff :- Gen(f.value, tt.next);
        Success(Emitted(cc.code + TestZero(lelse) + tt.code + [Jmp(lend), Label(lelse)] + ff.code + [Label(lend)], ff.next))
      else
        var lend := Lbl(DotLend, cc.next);
        var tt :- Gen(t, cc.next + 1);
        Success(Emitted(cc.code + TestZero(lend) + tt.code + [Label(lend)], tt.next))
    case While(c, body) =>
      var lbegin, lend := Lbl(Lbegin, k), Lbl(Lend, k + 1);
      var cc :- Gen(c, k + 2);
      var bb :- Gen(body, cc.next);
      Success(Emitted([Label(lbegin)] + cc.code + TestZero(lend) + bb.code + [Jmp(lbegin), Label(lend)], bb.next))
    case For(init, guard, after, body) =>
      var lbegin, lend := Lbl(Lbegin, k), Lbl(Lend, k + 1);
      var ii :- GenOptional(init, k + 2);
      var cc :- GenOptional(guard, ii.next);
      var bb :- Gen(body, cc.next);
      var aa :- GenOptional(after, bb.next);
      var test := if guard.Some? then cc.code + TestZero(lend) else [];
      Success(Emitted(ii.code + [Label(lbegin)] + test + bb.code + aa.code + [Jmp(lbegin), Label(lend)], aa.next))
    case Binary(op, l, rhs) =>
      var a :- Gen(l, k);
      var b :- Gen(rhs, a.next);
      Success(Emitted(a.code + b.code + [Pop(Rdi), Pop(Rax)] + OpCode(op) + [Push(Rax)], b.next))
    case _ => Failure(NoOperands)
  }

  /** An absent clause generates nothing. */
  function GenOptional(n: Option<Node>, k: nat): (r: Result<Emitted>)
    ensures r.Success? ==> k <= r.value.next
    ensures n.None? ==> r == Success(Emitted([], k))
  {
    if n.Some? then Gen(n.value, k) else Success(Emitted([], k))
  }

  /** Each statement followed by a `pop rax`. */
  function GenStmts(ss: seq<Node>, k: nat): (r: Result<Emitted>)
    ensures r.Success? ==> k <= r.value.next
  {
    if |ss| == 0 then Success(Emitted([], k))
    else
      var a :- Gen(ss[0], k);
      var b :- GenStmts(ss[1..], a.next);
      Success(Emitted(a.code + [Pop(Rax)] + b.code, b.next))
  }

  /** The arguments of a call from index `i` on, each pushed in order.
      As in the source, the argument register of an argument is looked up
      right after its code, so a seventh argument fails once its own code
      has been generated. */
  function GenArgs(args: seq<Node>, i: nat, k: nat): (r: Result<Emitted>)
    requires i <= |args|
    ensures r.Success? ==> k <= r.value.next
    ensures r.Success? ==> i == |args| || |args| <= |ArgRegs|
    decreases args, |args| - i
  {
    if i == |args| then Success(Emitted([], k))
    else
      var a :- Gen(args[i], k);
      var _ :- ArgRegister(i);
      var b :- GenArgs(args, i + 1, a.next);
      Success(Emitted(a.code + b.code, b.next))
  }

  /** Stores each incoming argument register into its parameter's slot. */
  function GenParams(params: seq<Node>, i: nat): (r: Result<seq<Instr>>)
    requires i <= |params|
    decreases |params| - i
  {
    if i == |params| then Success([])
    else
      var a :- GenLval(params[i]);
      var reg :- ArgRegister(i);
      var b :- GenParams(params, i + 1);
      Success(a + [Pop(Rax), Store(Rax, reg)] + b)
  }

  const Directives: seq<Instr> := [Directive(".intel_syntax noprefix"), Directive(".globl main")]

  /** Each top-level node's code in order, with nothing between them. */
  function GenAll(nodes: seq<Node>, k: nat): (r: Result<Emitted>)
    ensures r.Success? ==> k <= r.value.next
  {
    if |nodes| == 0 then Success(Emitted([], k))
    else
      var a :- Gen(nodes[0], k);
      var b :- GenAll(nodes[1..], a.next);
      Success(Emitted(a.code + b.code, b.next))
  }

  /** `generateCode`: the two assembler directives, then the program. The
      label counter starts at 0. */
  function GenerateCode(nodes: seq<Node>): (r: Result<seq<Instr>>)
    ensures r.Success? ==> |r.value| >= 2 && r.value[..2] == Directives
  {
    var a :- GenAll(nodes, 0);
    Success(Directives + a.code)
  }
}
