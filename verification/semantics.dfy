/** What an expression means, independently of any code: its value and
    the memory it leaves, evaluating operands left to right. Local `o`
    lives at address `frame - o`; a call's result comes from the callee. */
module Semantics {
  import opened Wrappers
  import opened Ast
  import opened Machine

  /** The expression forms the generator can compile to straight-line
      code. */
  predicate IsExpr(e: Node) {
    match e
    case Num(_) => true
    case LVar(_) => true
    case Binary(_, l, r) => IsExpr(l) && IsExpr(r)
    case Assign(l, r) => IsExpr(l) && IsExpr(r)
    case Call(_, args) => AllExpr(args)
    case _ => false
  }

  predicate AllExpr(es: seq<Node>) {
    forall i | 0 <= i < |es| :: IsExpr(es[i])
  }

  predicate IsComparison(op: BinOp) {
    op == Equ || op == Neq || op == Lss || op == Leq
  }

  /** A binary operator on two values; division truncates toward zero and
      has no value for a zero divisor. */
  function Apply(op: BinOp, a: int, b: int): (r: Option<int>)
    ensures r.None? <==> op == Div && b == 0
    ensures IsComparison(op) ==> r.Some? && (r.value == 0 || r.value == 1)
  {
    match op
    case Add => Some(a + b)
    case Sub => Some(a - b)
    case Mul => Some(a * b)
    case Div => if b == 0 then None else Some(TruncDiv(a, b))
    case Equ => Some(if a == b then 1 else 0)
    case Neq => Some(if a != b then 1 else 0)
    case Lss => Some(if a < b then 1 else 0)
    case Leq => Some(if a <= b then 1 else 0)
  }

  /** The value of `e` and the memory after it, or `None` when it divides
      by zero or assigns to something that is not a variable. */
  function Eval(e: Node, frame: int, mem: Memory, ret: (string, seq<int>) -> int): Option<(int, Memory)>
    requires IsExpr(e)
  {
    match e
    case Num(v) => Some((v, mem))
    case LVar(o) => Some((Read(mem, frame - o), mem))
    case Binary(op, l, r) =>
      (match Eval(l, frame, mem, ret)
       case None => None
       case Some((a, m1)) =>
         match Eval(r, frame, m1, ret)
         case None => None
         case Some((b, m2)) =>
           match Apply(op, a, b)
           case None => None
           case Some(v) => Some((v, m2)))
    case Assign(l, r) =>
      if !l.LVar? then None
      else
        (match Eval(r, frame, mem, ret)
         case None => None
         case Some((v, m1)) => Some((v, m1[frame - l.offset := v])))
    case Call(f, args) =>
      match EvalArgs(args, frame, mem, ret)
      case None => None
      case Some((vs, m1)) => Some((ret(f, vs), m1))
  }

  /** The arguments' values, left to right, each seeing the memory the
      previous one left. */
  function EvalArgs(args: seq<Node>, frame: int, mem: Memory, ret: (string, seq<int>) -> int): (r: Option<(seq<int>, Memory)>)
    requires AllExpr(args)
    ensures r.Some? ==> |r.value.0| == |args|
  {
    if |args| == 0 then Some(([], mem))
    else
      match Eval(args[0], frame, mem, ret)
      case None => None
      case Some((v, m1)) =>
        match EvalArgs(args[1..], frame, m1, ret)
        case None => None
        case Some((vs, m2)) => Some(([v] + vs, m2))
  }
}
