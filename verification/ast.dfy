/** The syntax tree the parser builds and the generator walks: one
    variant per node kind, each carrying only its own fields. */
module Ast {
  import opened Wrappers

  /** Binary operators. There is no greater-than kind: the parser writes
      `a > b` as `b < a` and `a >= b` as `b <= a`. */
  datatype BinOp = Add | Sub | Mul | Div | Equ | Neq | Lss | Leq

  datatype Node =
    | Num(val: int)
    | LVar(offset: int)
    | Binary(op: BinOp, lhs: Node, rhs: Node)
    | Assign(lhs: Node, rhs: Node)
    | Deref(operand: Node)
    | Addr(operand: Node)
    | Call(callee: string, args: seq<Node>)
    | Func(name: string, params: seq<Node>, stmts: seq<Node>)
    | Block(stmts: seq<Node>)
    | Return(expr: Node)
    | If(cond: Node, caseTrue: Node, caseFalse: Option<Node>)
    | While(cond: Node, whileTrue: Node)
    | For(init: Option<Node>, guard: Option<Node>, after: Option<Node>, whileTrue: Node)
    | IntDecl

  /** Every local-variable node in `n` refers to one of `offsets`. */
  predicate UsesOnly(n: Node, offsets: set<int>) {
    match n
    case Num(_) => true
    case LVar(o) => o in offsets
    case Binary(_, l, r) => UsesOnly(l, offsets) && UsesOnly(r, offsets)
    case Assign(l, r) => UsesOnly(l, offsets) && UsesOnly(r, offsets)
    case Deref(x) => UsesOnly(x, offsets)
    case Addr(x) => UsesOnly(x, offsets)
    case Call(_, args) => AllUseOnly(args, offsets)
    case Func(_, ps, ss) => AllUseOnly(ps, offsets) && AllUseOnly(ss, offsets)
    case Block(ss) => AllUseOnly(ss, offsets)
    case Return(x) => UsesOnly(x, offsets)
    case If(c, t, f) => UsesOnly(c, offsets) && UsesOnly(t, offsets) && (f.Some? ==> UsesOnly(f.value, offsets))
    case While(c, b) => UsesOnly(c, offsets) && UsesOnly(b, offsets)
    case For(i, c, a, b) =>
      && (i.Some? ==> UsesOnly(i.value, offsets))
      && (c.Some? ==> UsesOnly(c.value, offsets))
      && (a.Some? ==> UsesOnly(a.value, offsets))
      && UsesOnly(b, offsets)
    case IntDecl => true
  }

  predicate AllUseOnly(ns: seq<Node>, offsets: set<int>) {
    forall i | 0 <= i < |ns| :: UsesOnly(ns[i], offsets)
  }

  lemma UsesOnlyGrows(n: Node, small: set<int>, big: set<int>)
    requires UsesOnly(n, small) && small <= big
    ensures UsesOnly(n, big)
  {
    match n
    case Call(_, args) =>
      forall i | 0 <= i < |args| ensures UsesOnly(args[i], big) {
        UsesOnlyGrows(args[i], small, big);
      }
    case Func(_, ps, ss) =>
      forall i | 0 <= i < |ps| ensures UsesOnly(ps[i], big) {
        UsesOnlyGrows(ps[i], small, big);
      }
      forall i | 0 <= i < |ss| ensures UsesOnly(ss[i], big) {
        UsesOnlyGrows(ss[i], small, big);
      }
    case Block(ss) =>
      forall i | 0 <= i < |ss| ensures UsesOnly(ss[i], big) {
        UsesOnlyGrows(ss[i], small, big);
      }
    case If(c, t, f) =>
      UsesOnlyGrows(c, small, big);
      UsesOnlyGrows(t, small, big);
      if f.Some? {
        UsesOnlyGrows(f.value, small, big);
      }
    case For(i, c, a, b) =>
      if i.Some? { UsesOnlyGrows(i.value, small, big); }
      if c.Some? { UsesOnlyGrows(c.value, small, big); }
      if a.Some? { UsesOnlyGrows(a.value, small, big); }
      UsesOnlyGrows(b, small, big);
    case _ =>
  }
}
