/** The instructions the code generator emits, and an abstract machine
    that runs the straight-line ones: a register file, a value stack, a
    word-addressed memory and the flags of the last comparison. Values are
    unbounded integers; calls go to a callee given as a parameter. */
module Machine {
  import opened Wrappers

  datatype Reg = Rax | Rdi | Rsi | Rdx | Rcx | R8 | R9 | Rbp | Rsp | Al

  /** The four label families; all share one counter. */
  datatype LabelKind = DotLelse | DotLend | Lbegin | Lend
  datatype Lbl = Lbl(kind: LabelKind, n: nat)

  datatype ArithOp = AddOp | SubOp | ImulOp

  /** The condition a `setcc` tests on the flags of `cmp a, b`. */
  datatype Cond = E | Ne | L | Le

  datatype Instr =
    | Directive(text: string)        // `.intel_syntax noprefix`, `.globl main`
    | FuncLabel(name: string)        // `name:`
    | Label(l: Lbl)                  // `.Lend3:` and the like
    | PushImm(imm: int)              // `push 5`
    | Push(r: Reg)                   // `push rax`
    | Pop(r: Reg)                    // `pop rax`
    | Mov(dst: Reg, src: Reg)        // `mov rax, rbp`
    | SubImm(dst: Reg, imm: int)     // `sub rax, 8`
    | Load(dst: Reg, addr: Reg)      // `mov rax, [rax]`
    | Store(addr: Reg, src: Reg)     // `mov [rax], rdi`
    | Arith(op: ArithOp, dst: Reg, src: Reg)   // `add rax, rdi`
    | Cqo
    | Idiv(src: Reg)
    | Cmp(a: Reg, b: Reg)
    | CmpImm(a: Reg, imm: int)       // `cmp rax, 0`
    | Set(cc: Cond)                  // `sete al`
    | Movzb(dst: Reg, src: Reg)      // `movzb rax, al`
    | Jmp(target: Lbl)
    | Je(target: Lbl)
    | CallFn(name: string, arity: nat)  // `call name`; the arity is not printed
    | Ret

  type Memory = map<int, int>

  /** What a called function does, seen from the caller: the value it
      returns in `rax` for the name and arguments, and what it leaves in
      each argument register. It does not touch the caller's stack slots
      or frame. */
  datatype Callee = Callee(ret: (string, seq<int>) -> int, scratch: (string, seq<int>, Reg) -> int)

  datatype State = State(regs: map<Reg, int>, stack: seq<int>, mem: Memory, flags: (int, int))

  /** Registers and memory read as 0 until written. */
  function Get(s: State, r: Reg): int {
    if r in s.regs then s.regs[r] else 0
  }

  function Put(s: State, r: Reg, v: int): (s': State)
    ensures Get(s', r) == v
    ensures s'.stack == s.stack && s'.mem == s.mem
  {
    s.(regs := s.regs[r := v])
  }

  function Read(m: Memory, a: int): int {
    if a in m then m[a] else 0
  }

  function Abs(x: int): nat {
    if x < 0 then -x else x
  }

  /** Division rounding toward zero, as `idiv` does: the quotient of the
      magnitudes, negated when the signs differ. */
  function TruncDiv(a: int, b: int): int
    requires b != 0
  {
    var q := Abs(a) / Abs(b);
    if (a < 0) == (b < 0) then q else -q
  }

  /** The remainder `idiv` leaves in `rdx`: the remainder of the
      magnitudes, with the sign of `a`. */
  function TruncRem(a: int, b: int): int
    requires b != 0
  {
    if a < 0 then -(Abs(a) % Abs(b)) else Abs(a) % Abs(b)
  }

  /** The quotient's magnitude is the quotient of the magnitudes, and it
      is positive only for operands of equal sign, negative only for
      operands of different sign: it rounds toward zero. */
  lemma TruncDivSpec(a: int, b: int)
    requires b != 0
    ensures Abs(TruncDiv(a, b)) == Abs(a) / Abs(b)
    ensures TruncDiv(a, b) > 0 ==> (a < 0) == (b < 0)
    ensures TruncDiv(a, b) < 0 ==> (a < 0) != (b < 0)
  {
    var x: int, y: int := Abs(a), Abs(b);
    var q: int := x / y;
    assert y > 0 && x >= 0;
    assert q >= 0 by { assert x / y >= 0; }
    if (a < 0) == (b < 0) {
      assert TruncDiv(a, b) == q;
    } else {
      assert TruncDiv(a, b) == -q;
    }
  }

  /** Quotient and remainder recompose the dividend, and the remainder is
      smaller in magnitude than the divisor. */
  lemma DivRemIdentity(a: int, b: int)
    requires b != 0
    ensures TruncDiv(a, b) * b + TruncRem(a, b) == a
    ensures Abs(TruncRem(a, b)) < Abs(b)
  {
    var x: int, y: int := Abs(a), Abs(b);
    var m: int := x / y;
    var r0 := x % y;
    var p := m * y;
    assert x == p + r0;
    var q := TruncDiv(a, b);
    var qb := q * b;
    if a < 0 && b < 0 {
      assert q == m && b == -y && qb == -p;
    } else if a < 0 {
      assert q == -m && b == y && qb == -p;
    } else if b < 0 {
      assert q == -m && b == -y && qb == p;
    } else {
      assert q == m && b == y && qb == p;
    }
  }

  function Holds(cc: Cond, flags: (int, int)): bool {
    match cc
    case E => flags.0 == flags.1
    case Ne => flags.0 != flags.1
    case L => flags.0 < flags.1
    case Le => flags.0 <= flags.1
  }

  /** The six argument registers of the System V calling convention, in
      order. */
  const ArgRegs: seq<Reg> := [Rdi, Rsi, Rdx, Rcx, R8, R9]

  /** The first `k` argument registers' contents. */
  function ArgValues(s: State, k: nat): (vs: seq<int>)
    requires k <= 6
    ensures |vs| == k && forall i | 0 <= i < k :: vs[i] == Get(s, ArgRegs[i])
  {
    [Get(s, Rdi), Get(s, Rsi), Get(s, Rdx), Get(s, Rcx), Get(s, R8), Get(s, R9)][..k]
  }

  /** The state after a call returns: every argument register holds what
      the callee left there. */
  function Clobber(s: State, callee: Callee, name: string, args: seq<int>): (s': State)
    ensures s'.stack == s.stack && s'.mem == s.mem
    ensures forall r | r !in ArgRegs :: Get(s', r) == Get(s, r)
  {
    var left := (r: Reg) => callee.scratch(name, args, r);
    s.(regs := s.regs[Rdi := left(Rdi)][Rsi := left(Rsi)][Rdx := left(Rdx)][Rcx := left(Rcx)][R8 := left(R8)][R9 := left(R9)])
  }

  /** One instruction. Labels, jumps, returns and the assembler lines stop
      the straight-line machine (`None`), as do popping an empty stack and
      dividing by zero. */
  function Step(s: State, ins: Instr, callee: Callee): Option<State> {
    match ins
    case PushImm(v) => Some(s.(stack := s.stack + [v]))
    case Push(r) => Some(s.(stack := s.stack + [Get(s, r)]))
    case Pop(r) =>
      if |s.stack| == 0 then None
      else Some(Put(s.(stack := s.stack[..|s.stack| - 1]), r, s.stack[|s.stack| - 1]))
    case Mov(d, r) => Some(Put(s, d, Get(s, r)))
    case SubImm(d, v) => Some(Put(s, d, Get(s, d) - v))
    case Load(d, a) => Some(Put(s, d, Read(s.mem, Get(s, a))))
    case Store(a, r) => Some(s.(mem := s.mem[Get(s, a) := Get(s, r)]))
    case Arith(op, d, r) =>
      var x, y := Get(s, d), Get(s, r);
      Some(Put(s, d, match op case AddOp => x + y case SubOp => x - y case ImulOp => x * y))
    case Cqo => Some(Put(s, Rdx, if Get(s, Rax) < 0 then -1 else 0))
    case Idiv(r) =>
      var x, y := Get(s, Rax), Get(s, r);
      if y == 0 then None
      else Some(Put(Put(s, Rax, TruncDiv(x, y)), Rdx, TruncRem(x, y)))
    case Cmp(a, b) => Some(s.(flags := (Get(s, a), Get(s, b))))
    case CmpImm(a, v) => Some(s.(flags := (Get(s, a), v)))
    case Set(cc) => Some(Put(s, Al, if Holds(cc, s.flags) then 1 else 0))
    case Movzb(d, r) => Some(Put(s, d, Get(s, r)))
    case CallFn(name, k) => CallOut(s, name, k, callee)
    case _ => None
  }

  /** `call name` with `k` arguments in registers: `rax` gets the callee's
      result for the argument registers' values, and the argument
      registers what the callee left in them. */
  function CallOut(s: State, name: string, k: nat, callee: Callee): Option<State> {
    if k > |ArgRegs| then None
    else
      var args := ArgValues(s, k);
      Some(Put(Clobber(s, callee, name, args), Rax, callee.ret(name, args)))
  }

  /** Runs straight-line code from the first instruction to the last. */
  function Run(code: seq<Instr>, s: State, callee: Callee): Option<State>
    decreases |code|
  {
    if |code| == 0 then Some(s)
    else
      match Step(s, code[0], callee)
      case None => None
      case Some(s1) => Run(code[1..], s1, callee)
  }

  /** Running two pieces one after the other is running their
      concatenation. */
  lemma {:induction false} RunAppend(a: seq<Instr>, b: seq<Instr>, s: State, callee: Callee)
    ensures Run(a + b, s, callee) == match Run(a, s, callee) case None => None case Some(s1) => Run(b, s1, callee)
    decreases |a|
  {
    if |a| > 0 {
      assert (a + b)[0] == a[0] && (a + b)[1..] == a[1..] + b;
      match Step(s, a[0], callee)
      case None =>
      case Some(s1) => RunAppend(a[1..], b, s1, callee);
    } else {
      assert a + b == b;
    }
  }

  /** What one instruction does to the stack height, read from its text. */
  function Effect(i: Instr): int {
    match i
    case PushImm(_) => 1
    case Push(_) => 1
    case Pop(_) => -1
    case _ => 0
  }

  /** Net number of values pushed: the sum of the instructions' effects. */
  function NetEffect(code: seq<Instr>): int {
    if |code| == 0 then 0 else Effect(code[0]) + NetEffect(code[1..])
  }

  lemma {:induction false} NetEffectAppend(a: seq<Instr>, b: seq<Instr>)
    ensures NetEffect(a + b) == NetEffect(a) + NetEffect(b)
    decreases |a|
  {
    if |a| > 0 {
      assert (a + b)[0] == a[0] && (a + b)[1..] == a[1..] + b;
      NetEffectAppend(a[1..], b);
    } else {
      assert a + b == b;
    }
  }
}
