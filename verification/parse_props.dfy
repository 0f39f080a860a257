/** What the expression grammar means: a printer that puts parentheses
    only where precedence needs them, and the theorem that every level of
    the parser reads back exactly the tree that was printed, leaving the
    following tokens alone. Also the swapped comparisons, unary signs,
    declarations and `for` headers. */
module ParserProps {
  import opened Wrappers
  import opened Ast
  import opened Parser

  /** Binding strength of an operator, tightest last. */
  function OpLevel(op: BinOp): nat {
    match op
    case Equ => 2
    case Neq => 2
    case Lss => 3
    case Leq => 3
    case Add => 4
    case Sub => 4
    case Mul => 5
    case Div => 5
  }

  function OpText(op: BinOp): string {
    match op
    case Add => "+"
    case Sub => "-"
    case Mul => "*"
    case Div => "/"
    case Equ => "=="
    case Neq => "!="
    case Lss => "<"
    case Leq => "<="
  }

  /** The grammar level an expression's outermost construct belongs to:
      1 assign, 2 equality, 3 relational, 4 add, 5 mul, 6 unary,
      7 primary. */
  function Level(e: Node): nat {
    match e
    case Assign(_, _) => 1
    case Binary(op, _, _) => OpLevel(op)
    case Deref(_) => 6
    case Addr(_) => 6
    case _ => 7
  }

  function ExprSize(e: Node): nat {
    match e
    case Binary(_, l, r) => 1 + ExprSize(l) + ExprSize(r)
    case Assign(l, r) => 1 + ExprSize(l) + ExprSize(r)
    case Deref(x) => 1 + ExprSize(x)
    case Addr(x) => 1 + ExprSize(x)
    case Call(_, args) => 1 + ExprSizeAll(args)
    case _ => 1
  }

  function ExprSizeAll(es: seq<Node>): nat {
    if |es| == 0 then 0 else ExprSize(es[0]) + ExprSizeAll(es[1..])
  }

  /** Expression trees the printer can spell: non-negative literals, and
      every variable offset has a name. */
  predicate Printable(e: Node, names: map<int, string>) {
    match e
    case Num(v) => v >= 0
    case LVar(o) => o in names
    case Binary(_, l, r) => Printable(l, names) && Printable(r, names)
    case Assign(l, r) => Printable(l, names) && Printable(r, names)
    case Deref(x) => Printable(x, names)
    case Addr(x) => Printable(x, names)
    case Call(_, args) => AllPrintable(args, names)
    case _ => false
  }

  predicate AllPrintable(es: seq<Node>, names: map<int, string>) {
    forall i | 0 <= i < |es| :: Printable(es[i], names)
  }

  /** The names the printer uses resolve, in the parser's table, to the
      offsets they were chosen for. */
  predicate NamesAgree(names: map<int, string>, locals: Locals) {
    forall o | o in names :: names[o] in locals && locals[names[o]] == o
  }

  function Op(s: string): Tok {
    ReservedTok(s, 0)
  }

  /** A token an expression's spelling can start with. */
  predicate Opener(t: Tok) {
    t.NumTok? || t.IdentTok? || IsOp(t, "(") || IsOp(t, "*") || IsOp(t, "&")
  }

  function Print(e: Node, names: map<int, string>): (ts: seq<Tok>)
    requires Printable(e, names)
    ensures |ts| > 0 && Opener(ts[0])
    decreases e, 0
  {
    match e
    case Num(v) => [NumTok(v, 0)]
    case LVar(o) => [IdentTok(names[o], 0)]
    case Call(f, args) => [IdentTok(f, 0), Op("(")] + PrintArgs(args, names) + [Op(")")]
    case Deref(x) => [Op("*")] + PrintAt(x, names, 6)
    case Addr(x) => [Op("&")] + PrintAt(x, names, 6)
    case Binary(op, l, r) => PrintAt(l, names, OpLevel(op)) + [Op(OpText(op))] + PrintAt(r, names, OpLevel(op) + 1)
    case Assign(l, r) => PrintAt(l, names, 2) + [Op("=")] + PrintAt(r, names, 1)
  }

  /** `e` spelt where the grammar expects level `ctx`: parenthesised when
      its own operator binds more loosely. */
  function PrintAt(e: Node, names: map<int, string>, ctx: nat): (ts: seq<Tok>)
    requires Printable(e, names)
    ensures |ts| > 0 && Opener(ts[0])
    decreases e, 1
  {
    if ctx <= Level(e) then Print(e, names)
    else [Op("(")] + Print(e, names) + [Op(")")]
  }

  /** Call arguments separated by commas. */
  function PrintArgs(es: seq<Node>, names: map<int, string>): seq<Tok>
    requires AllPrintable(es, names)
    decreases es
  {
    if |es| == 0 then []
    else if |es| == 1 then PrintAt(es[0], names, 0)
    else PrintAt(es[0], names, 0) + [Op(",")] + PrintArgs(es[1..], names)
  }

  /** Whether token `t` would make a parser at level `ctx` read on: an
      opening parenthesis (a call, after a name), or an operator of level
      `ctx` or tighter. */
  predicate Continues(t: Tok, ctx: nat) {
    t.ReservedTok? &&
    (|| t.str == "("
     || (ctx <= 1 && t.str == "=")
     || (ctx <= 2 && (t.str == "==" || t.str == "!="))
     || (ctx <= 3 && (t.str == "<" || t.str == "<=" || t.str == ">" || t.str == ">="))
     || (ctx <= 4 && (t.str == "+" || t.str == "-"))
     || (ctx <= 5 && (t.str == "*" || t.str == "/")))
  }

  /** The tokens after an expression end it at level `ctx`. */
  predicate StopsAt(rest: seq<Tok>, ctx: nat) {
    |rest| > 0 && !Continues(rest[0], ctx)
  }

  /** Orders the round-trip lemmas for one tree: from a level down to the
      tree's own, then (through parentheses) from the primary level back to
      the top. */
  function Rank(ctx: nat, e: Node): nat {
    if ctx <= Level(e) then 2 * (8 - ctx) else if ctx <= 20 then 2 * (20 - ctx) else 0
  }

  // The round trip, one lemma per grammar level. A `...Prefix` lemma says
  // that the level's first operand and loop read back `e` and leave the
  // loop to continue on `rest`.

  lemma {:induction false} ExprRoundTrip(e: Node, names: map<int, string>, locals: Locals, rest: seq<Tok>)
    requires Printable(e, names) && NamesAgree(names, locals) && StopsAt(rest, 0)
    ensures ParseExpr(PrintAt(e, names, 0) + rest, locals) == Success(Parsed(e, rest))
    decreases ExprSize(e), Rank(0, e) + 1
  {
    assert PrintAt(e, names, 0) == PrintAt(e, names, 1);
    AssignRoundTrip(e, names, locals, rest);
  }

  lemma {:induction false} AssignRoundTrip(e: Node, names: map<int, string>, locals: Locals, rest: seq<Tok>)
    requires Printable(e, names) && NamesAgree(names, locals) && StopsAt(rest, 1)
    ensures ParseAssign(PrintAt(e, names, 1) + rest, locals) == Success(Parsed(e, rest))
    decreases ExprSize(e), Rank(1, e) + 1
  {
    if e.Assign? {
      var l := PrintAt(e.lhs, names, 2);
      var r := PrintAt(e.rhs, names, 1);
      assert PrintAt(e, names, 1) == l + [Op("=")] + r;
      EqualityRoundTrip(e.lhs, names, locals, [Op("=")] + r + rest);
      AssignRoundTrip(e.rhs, names, locals, rest);
      AssignStep(l, r, rest, e.lhs, e.rhs, locals);
    } else {
      assert PrintAt(e, names, 1) == PrintAt(e, names, 2);
      EqualityRoundTrip(e, names, locals, rest);
    }
  }

  /** An assignment: the left side read at the equality level up to the
      `=`, then the right side read as an assignment again. */
  lemma AssignStep(l: seq<Tok>, r: seq<Tok>, rest: seq<Tok>, lhs: Node, rhs: Node, locals: Locals)
    requires ParseEquality(l + ([Op("=")] + r + rest), locals) == Success(Parsed(lhs, [Op("=")] + r + rest))
    requires ParseAssign(r + rest, locals) == Success(Parsed(rhs, rest))
    ensures ParseAssign(l + [Op("=")] + r + rest, locals) == Success(Parsed(Assign(lhs, rhs), rest))
  {
    assert l + [Op("=")] + r + rest == l + ([Op("=")] + r + rest);
    assert ([Op("=")] + r + rest)[1..] == r + rest;
  }

  /** One turn of the `equality` loop on an operator of its level. */
  lemma EqualityTailStep(op: BinOp, lhs: Node, rhs: Node, ts: seq<Tok>, rest: seq<Tok>, locals: Locals)
    requires OpLevel(op) == 2
    requires ParseRelational(ts, locals) == Success(Parsed(rhs, rest))
    ensures EqualityTail(lhs, [Op(OpText(op))] + ts, locals) == EqualityTail(Binary(op, lhs, rhs), rest, locals)
  {
    assert ([Op(OpText(op))] + ts)[1..] == ts;
  }

  lemma {:induction false} EqualityRoundTrip(e: Node, names: map<int, string>, locals: Locals, rest: seq<Tok>)
    requires Printable(e, names) && NamesAgree(names, locals) && StopsAt(rest, 2)
    ensures ParseEquality(PrintAt(e, names, 2) + rest, locals) == Success(Parsed(e, rest))
    decreases ExprSize(e), Rank(2, e) + 1
  {
    EqualityPrefix(e, names, locals, rest);
  }

  lemma {:induction false} EqualityPrefix(e: Node, names: map<int, string>, locals: Locals, rest: seq<Tok>)
    requires Printable(e, names) && NamesAgree(names, locals) && StopsAt(rest, 3)
    ensures ParseEquality(PrintAt(e, names, 2) + rest, locals) == EqualityTail(e, rest, locals)
    decreases ExprSize(e), Rank(2, e)
  {
    if e.Binary? && OpLevel(e.op) == 2 {
      var after := PrintAt(e.rhs, names, 3) + rest;
      var rest2 := [Op(OpText(e.op))] + after;
      assert PrintAt(e, names, 2) + rest == PrintAt(e.lhs, names, 2) + rest2;
      EqualityPrefix(e.lhs, names, locals, rest2);
      RelationalRoundTrip(e.rhs, names, locals, rest);
      EqualityTailStep(e.op, e.lhs, e.rhs, after, rest, locals);
    } else {
      assert PrintAt(e, names, 2) == PrintAt(e, names, 3);
      RelationalRoundTrip(e, names, locals, rest);
    }
  }

  /** One turn of the `relational` loop on an operator of its level. */
  lemma RelationalTailStep(op: BinOp, lhs: Node, rhs: Node, ts: seq<Tok>, rest: seq<Tok>, locals: Locals)
    requires OpLevel(op) == 3
    requires ParseAdd(ts, locals) == Success(Parsed(rhs, rest))
    ensures RelationalTail(lhs, [Op(OpText(op))] + ts, locals) == RelationalTail(Binary(op, lhs, rhs), rest, locals)
  {
    assert ([Op(OpText(op))] + ts)[1..] == ts;
  }

  lemma {:induction false} RelationalRoundTrip(e: Node, names: map<int, string>, locals: Locals, rest: seq<Tok>)
    requires Printable(e, names) && NamesAgree(names, locals) && StopsAt(rest, 3)
    ensures ParseRelational(PrintAt(e, names, 3) + rest, locals) == Success(Parsed(e, rest))
    decreases ExprSize(e), Rank(3, e) + 1
  {
    RelationalPrefix(e, names, locals, rest);
  }

  lemma {:induction false} RelationalPrefix(e: Node, names: map<int, string>, locals: Locals, rest: seq<Tok>)
    requires Printable(e, names) && NamesAgree(names, locals) && StopsAt(rest, 4)
    ensures ParseRelational(PrintAt(e, names, 3) + rest, locals) == RelationalTail(e, rest, locals)
    decreases ExprSize(e), Rank(3, e)
  {
    if e.Binary? && OpLevel(e.op) == 3 {
      var after := PrintAt(e.rhs, names, 4) + rest;
      var rest2 := [Op(OpText(e.op))] + after;
      assert PrintAt(e, names, 3) + rest == PrintAt(e.lhs, names, 3) + rest2;
      RelationalPrefix(e.lhs, names, locals, rest2);
      AddRoundTrip(e.rhs, names, locals, rest);
      RelationalTailStep(e.op, e.lhs, e.rhs, after, rest, locals);
    } else {
      assert PrintAt(e, names, 3) == PrintAt(e, names, 4);
      AddRoundTrip(e, names, locals, rest);
    }
  }

  /** One turn of the `add` loop on an operator of its level. */
  lemma AddTailStep(op: BinOp, lhs: Node, rhs: Node, ts: seq<Tok>, rest: seq<Tok>, locals: Locals)
    requires OpLevel(op) == 4
    requires ParseMul(ts, locals) == Success(Parsed(rhs, rest))
    ensures AddTail(lhs, [Op(OpText(op))] + ts, locals) == AddTail(Binary(op, lhs, rhs), rest, locals)
  {
    assert ([Op(OpText(op))] + ts)[1..] == ts;
  }

  lemma {:induction false} AddRoundTrip(e: Node, names: map<int, string>, locals: Locals, rest: seq<Tok>)
    requires Printable(e, names) && NamesAgree(names, locals) && StopsAt(rest, 4)
    ensures ParseAdd(PrintAt(e, names, 4) + rest, locals) == Success(Parsed(e, rest))
    decreases ExprSize(e), Rank(4, e) + 1
  {
    AddPrefix(e, names, locals, rest);
  }

  lemma {:induction false} AddPrefix(e: Node, names: map<int, string>, locals: Locals, rest: seq<Tok>)
    requires Printable(e, names) && NamesAgree(names, locals) && StopsAt(rest, 5)
    ensures ParseAdd(PrintAt(e, names, 4) + rest, locals) == AddTail(e, rest, locals)
    decreases ExprSize(e), Rank(4, e)
  {
    if e.Binary? && OpLevel(e.op) == 4 {
      var after := PrintAt(e.rhs, names, 5) + rest;
      var rest2 := [Op(OpText(e.op))] + after;
      assert PrintAt(e, names, 4) + rest == PrintAt(e.lhs, names, 4) + rest2;
      AddPrefix(e.lhs, names, locals, rest2);
      MulRoundTrip(e.rhs, names, locals, rest);
      AddTailStep(e.op, e.lhs, e.rhs, after, rest, locals);
    } else {
      assert PrintAt(e, names, 4) == PrintAt(e, names, 5);
      MulRoundTrip(e, names, locals, rest);
    }
  }

  /** One turn of the `mul` loop on an operator of its level. */
  lemma MulTailStep(op: BinOp, lhs: Node, rhs: Node, ts: seq<Tok>, rest: seq<Tok>, locals: Locals)
    requires OpLevel(op) == 5
    requires ParseUnary(ts, locals) == Success(Parsed(rhs, rest))
    ensures MulTail(lhs, [Op(OpText(op))] + ts, locals) == MulTail(Binary(op, lhs, rhs), rest, locals)
  {
    assert ([Op(OpText(op))] + ts)[1..] == ts;
  }

  lemma {:induction false} MulRoundTrip(e: Node, names: map<int, string>, locals: Locals, rest: seq<Tok>)
    requires Printable(e, names) && NamesAgree(names, locals) && StopsAt(rest, 5)
    ensures ParseMul(PrintAt(e, names, 5) + rest, locals) == Success(Parsed(e, rest))
    decreases ExprSize(e), Rank(5, e) + 1
  {
    MulPrefix(e, names, locals, rest);
  }

  lemma {:induction false} MulPrefix(e: Node, names: map<int, string>, locals: Locals, rest: seq<Tok>)
    requires Printable(e, names) && NamesAgree(names, locals) && StopsAt(rest, 6)
    ensures ParseMul(PrintAt(e, names, 5) + rest, locals) == MulTail(e, rest, locals)
    decreases ExprSize(e), Rank(5, e)
  {
    if e.Binary? && OpLevel(e.op) == 5 {
      var after := PrintAt(e.rhs, names, 6) + rest;
      var rest2 := [Op(OpText(e.op))] + after;
      assert PrintAt(e, names, 5) + rest == PrintAt(e.lhs, names, 5) + rest2;
      MulPrefix(e.lhs, names, locals, rest2);
      UnaryRoundTrip(e.rhs, names, locals, rest);
      MulTailStep(e.op, e.lhs, e.rhs, after, rest, locals);
    } else {
      assert PrintAt(e, names, 5) == PrintAt(e, names, 6);
      UnaryRoundTrip(e, names, locals, rest);
    }
  }

  lemma {:induction false} UnaryRoundTrip(e: Node, names: map<int, string>, locals: Locals, rest: seq<Tok>)
    requires Printable(e, names) && NamesAgree(names, locals) && StopsAt(rest, 6)
    ensures ParseUnary(PrintAt(e, names, 6) + rest, locals) == Success(Parsed(e, rest))
    decreases ExprSize(e), Rank(6, e) + 1
  {
    var ts := PrintAt(e, names, 6) + rest;
    if e.Deref? {
      assert ts == [Op("*")] + (PrintAt(e.operand, names, 6) + rest);
      UnaryRoundTrip(e.operand, names, locals, rest);
    } else if e.Addr? {
      assert ts == [Op("&")] + (PrintAt(e.operand, names, 6) + rest);
      UnaryRoundTrip(e.operand, names, locals, rest);
    } else {
      assert PrintAt(e, names, 6) == PrintAt(e, names, 7);
      assert !IsOp(ts[0], "+") && !IsOp(ts[0], "-") && !IsOp(ts[0], "*") && !IsOp(ts[0], "&") by {
        if Level(e) < 7 {
          assert ts[0] == Op("(");
        } else if e.Num? {
          assert ts[0] == NumTok(e.val, 0);
        } else if e.LVar? {
          assert ts[0] == IdentTok(names[e.offset], 0);
        } else {
          assert ts[0] == IdentTok(e.callee, 0);
        }
      }
      PrimaryRoundTrip(e, names, locals, rest);
    }
  }

  lemma {:induction false} PrimaryRoundTrip(e: Node, names: map<int, string>, locals: Locals, rest: seq<Tok>)
    requires Printable(e, names) && NamesAgree(names, locals) && StopsAt(rest, 7)
    ensures ParsePrimary(PrintAt(e, names, 7) + rest, locals) == Success(Parsed(e, rest))
    decreases ExprSize(e), Rank(7, e) + 1
  {
    if Level(e) < 7 {
      var p := PrintAt(e, names, 0);
      assert PrintAt(e, names, 7) == [Op("(")] + p + [Op(")")];
      ExprRoundTrip(e, names, locals, [Op(")")] + rest);
      ParenStep(p, e, rest, locals);
    } else if e.Num? {
      assert PrintAt(e, names, 7) == [NumTok(e.val, 0)];
      assert ([NumTok(e.val, 0)] + rest)[1..] == rest;
    } else if e.LVar? {
      assert PrintAt(e, names, 7) == [IdentTok(names[e.offset], 0)];
      VariableLookup(names[e.offset], 0, rest, locals);
    } else {
      CallRoundTrip(e, names, locals, rest);
    }
  }

  /** A call, with or without arguments. */
  lemma {:induction false} CallRoundTrip(e: Node, names: map<int, string>, locals: Locals, rest: seq<Tok>)
    requires e.Call? && Printable(e, names) && NamesAgree(names, locals) && StopsAt(rest, 7)
    ensures ParsePrimary(PrintAt(e, names, 7) + rest, locals) == Success(Parsed(e, rest))
    decreases ExprSize(e), Rank(7, e)
  {
    var a := PrintArgs(e.args, names);
    assert PrintAt(e, names, 7) == [IdentTok(e.callee, 0), Op("(")] + a + [Op(")")];
    if |e.args| == 0 {
      CallNoArgsStep(e.callee, rest, locals);
      assert [IdentTok(e.callee, 0), Op("(")] + a + [Op(")")] == [IdentTok(e.callee, 0), Op("("), Op(")")];
    } else {
      ArgsRoundTrip(e.args, names, locals, rest);
      assert a[0] == PrintAt(e.args[0], names, 0)[0];
      CallArgsStep(e.callee, a, e.args, rest, locals);
    }
  }

  /** A parenthesised expression. */
  lemma ParenStep(p: seq<Tok>, e: Node, rest: seq<Tok>, locals: Locals)
    requires ParseExpr(p + ([Op(")")] + rest), locals) == Success(Parsed(e, [Op(")")] + rest))
    ensures ParsePrimary([Op("(")] + p + [Op(")")] + rest, locals) == Success(Parsed(e, rest))
  {
    var ts := [Op("(")] + p + [Op(")")] + rest;
    assert ts[1..] == p + ([Op(")")] + rest);
  }

  /** A call with no arguments. */
  lemma CallNoArgsStep(f: string, rest: seq<Tok>, locals: Locals)
    ensures ParsePrimary([IdentTok(f, 0), Op("("), Op(")")] + rest, locals) == Success(Parsed(Call(f, []), rest))
  {
    var ts := [IdentTok(f, 0), Op("("), Op(")")] + rest;
    assert ts[1..][1..] == [Op(")")] + rest;
  }

  /** A call whose argument list reads back as `args`. */
  lemma CallArgsStep(f: string, a: seq<Tok>, args: seq<Node>, rest: seq<Tok>, locals: Locals)
    requires |a| > 0 && !IsOp(a[0], ")")
    requires ArgList(a + [Op(")")] + rest, locals) == Success(Parsed(args, rest))
    ensures ParsePrimary([IdentTok(f, 0), Op("(")] + a + [Op(")")] + rest, locals) == Success(Parsed(Call(f, args), rest))
  {
    var ts := [IdentTok(f, 0), Op("(")] + a + [Op(")")] + rest;
    assert ts[1..][1..] == a + [Op(")")] + rest;
  }

  lemma {:induction false} ArgsRoundTrip(es: seq<Node>, names: map<int, string>, locals: Locals, rest: seq<Tok>)
    requires |es| >= 1 && AllPrintable(es, names) && NamesAgree(names, locals)
    ensures ArgList(PrintArgs(es, names) + [Op(")")] + rest, locals) == Success(Parsed(es, rest))
    decreases ExprSizeAll(es), 50
  {
    if |es| == 1 {
      LastArgRoundTrip(es, names, locals, rest);
    } else {
      MoreArgsRoundTrip(es, names, locals, rest);
    }
  }

  lemma {:induction false} LastArgRoundTrip(es: seq<Node>, names: map<int, string>, locals: Locals, rest: seq<Tok>)
    requires |es| == 1 && AllPrintable(es, names) && NamesAgree(names, locals)
    ensures ArgList(PrintArgs(es, names) + [Op(")")] + rest, locals) == Success(Parsed(es, rest))
    decreases ExprSizeAll(es), 49
  {
    FirstPrintable(es, names);
    var p := PrintAt(es[0], names, 0);
    assert PrintArgs(es, names) == p;
    Separator(")", rest);
    ExprRoundTrip(es[0], names, locals, [Op(")")] + rest);
    LastArgStep(p, es[0], rest, locals);
    assert es == [es[0]];
  }

  lemma {:induction false} MoreArgsRoundTrip(es: seq<Node>, names: map<int, string>, locals: Locals, rest: seq<Tok>)
    requires |es| > 1 && AllPrintable(es, names) && NamesAgree(names, locals)
    ensures ArgList(PrintArgs(es, names) + [Op(")")] + rest, locals) == Success(Parsed(es, rest))
    decreases ExprSizeAll(es), 49
  {
    FirstPrintable(es, names);
    var p := PrintAt(es[0], names, 0);
    var tail := es[1..];
    var q := PrintArgs(tail, names) + [Op(")")] + rest;
    ArgsSpelling(es, names, rest);
    Separator(",", q);
    ExprRoundTrip(es[0], names, locals, [Op(",")] + q);
    ArgsRoundTrip(tail, names, locals, rest);
    MoreArgsStep(p, q, es, rest, locals);
  }

  /** `MoreArgStep` for a list given whole. */
  lemma MoreArgsStep(p: seq<Tok>, q: seq<Tok>, es: seq<Node>, rest: seq<Tok>, locals: Locals)
    requires |es| > 1
    requires ParseExpr(p + ([Op(",")] + q), locals) == Success(Parsed(es[0], [Op(",")] + q))
    requires ArgList(q, locals) == Success(Parsed(es[1..], rest))
    ensures ArgList(p + ([Op(",")] + q), locals) == Success(Parsed(es, rest))
  {
    MoreArgStep(p, q, es[0], es[1..], rest, locals);
    assert es == [es[0]] + es[1..];
  }

  /** More than one argument: the first, a comma, the others. */
  lemma ArgsSpelling(es: seq<Node>, names: map<int, string>, rest: seq<Tok>)
    requires |es| > 1 && AllPrintable(es, names)
    ensures Printable(es[0], names) && AllPrintable(es[1..], names)
    ensures PrintArgs(es, names) + [Op(")")] + rest
         == PrintAt(es[0], names, 0) + ([Op(",")] + (PrintArgs(es[1..], names) + [Op(")")] + rest))
  {
    FirstPrintable(es, names);
  }

  lemma FirstPrintable(es: seq<Node>, names: map<int, string>)
    requires |es| >= 1 && AllPrintable(es, names)
    ensures Printable(es[0], names) && AllPrintable(es[1..], names)
  {
    assert forall i | 0 <= i < |es| - 1 :: es[1..][i] == es[i + 1];
  }

  /** A `)` or `,` ends an expression at every level. */
  lemma Separator(c: string, rest: seq<Tok>)
    requires c == ")" || c == ","
    ensures StopsAt([Op(c)] + rest, 0)
  {
  }

  /** The last argument, closed by `)`. */
  lemma LastArgStep(p: seq<Tok>, e: Node, rest: seq<Tok>, locals: Locals)
    requires ParseExpr(p + ([Op(")")] + rest), locals) == Success(Parsed(e, [Op(")")] + rest))
    ensures ArgList(p + [Op(")")] + rest, locals) == Success(Parsed([e], rest))
  {
    assert p + [Op(")")] + rest == p + ([Op(")")] + rest);
    assert ([Op(")")] + rest)[1..] == rest;
  }

  /** An argument followed by `,` and the remaining ones. */
  lemma MoreArgStep(p: seq<Tok>, q: seq<Tok>, e: Node, es: seq<Node>, rest: seq<Tok>, locals: Locals)
    requires ParseExpr(p + ([Op(",")] + q), locals) == Success(Parsed(e, [Op(",")] + q))
    requires ArgList(q, locals) == Success(Parsed(es, rest))
    ensures ArgList(p + ([Op(",")] + q), locals) == Success(Parsed([e] + es, rest))
  {
    assert ([Op(",")] + q)[1..] == q;
  }

  /** `a > b` reads as `b < a`, and `a >= b` as `b <= a`. */
  lemma GreaterSwaps(a: Node, b: Node, strict: bool, names: map<int, string>, locals: Locals, rest: seq<Tok>)
    requires Printable(a, names) && Printable(b, names) && NamesAgree(names, locals) && StopsAt(rest, 3)
    ensures ParseRelational(PrintAt(a, names, 4) + [Op(if strict then ">" else ">=")] + PrintAt(b, names, 4) + rest, locals)
         == Success(Parsed(Binary(if strict then Lss else Leq, b, a), rest))
  {
    var op := Op(if strict then ">" else ">=");
    var pa, pb := PrintAt(a, names, 4), PrintAt(b, names, 4);
    AddRoundTrip(a, names, locals, [op] + (pb + rest));
    AddRoundTrip(b, names, locals, rest);
    GreaterParse(strict, pa, pb, a, b, rest, locals);
  }

  /** `a > b` and `a >= b` from the readings of their operands. */
  lemma GreaterParse(strict: bool, pa: seq<Tok>, pb: seq<Tok>, a: Node, b: Node, rest: seq<Tok>, locals: Locals)
    requires ParseAdd(pa + ([Op(if strict then ">" else ">=")] + (pb + rest)), locals)
          == Success(Parsed(a, [Op(if strict then ">" else ">=")] + (pb + rest)))
    requires ParseAdd(pb + rest, locals) == Success(Parsed(b, rest)) && StopsAt(rest, 3)
    ensures ParseRelational(pa + [Op(if strict then ">" else ">=")] + pb + rest, locals)
         == Success(Parsed(Binary(if strict then Lss else Leq, b, a), rest))
  {
    var op := Op(if strict then ">" else ">=");
    assert pa + [op] + pb + rest == pa + ([op] + (pb + rest));
    GreaterStep(strict, a, b, pb + rest, rest, locals);
  }

  lemma GreaterStep(strict: bool, lhs: Node, rhs: Node, ts: seq<Tok>, rest: seq<Tok>, locals: Locals)
    requires ParseAdd(ts, locals) == Success(Parsed(rhs, rest)) && StopsAt(rest, 3)
    ensures RelationalTail(lhs, [Op(if strict then ">" else ">=")] + ts, locals)
         == Success(Parsed(Binary(if strict then Lss else Leq, rhs, lhs), rest))
  {
    var ts2 := [Op(if strict then ">" else ">=")] + ts;
    assert ts2[1..] == ts;
    var swapped := Binary(if strict then Lss else Leq, rhs, lhs);
    if strict {
      assert RelationalTail(lhs, ts2, locals) == RelationalTail(swapped, rest, locals);
    } else {
      assert RelationalTail(lhs, ts2, locals) == RelationalTail(swapped, rest, locals);
    }
  }

  /** A leading `+` is dropped and a leading `-` becomes a subtraction
      from zero; either applies to one primary only. */
  lemma UnarySigns(x: Node, minus: bool, names: map<int, string>, locals: Locals, rest: seq<Tok>)
    requires Printable(x, names) && NamesAgree(names, locals) && StopsAt(rest, 7)
    ensures ParseUnary([Op(if minus then "-" else "+")] + PrintAt(x, names, 7) + rest, locals)
         == Success(Parsed(if minus then Binary(Sub, Num(0), x) else x, rest))
  {
    var ts := [Op(if minus then "-" else "+")] + PrintAt(x, names, 7) + rest;
    assert ts[1..] == PrintAt(x, names, 7) + rest;
    PrimaryRoundTrip(x, names, locals, rest);
  }

  /** `5+6*7;`: multiplication binds tighter than addition. */
  lemma PrecedenceExample()
    ensures ParseExpr([NumTok(5, 0), Op("+"), NumTok(6, 0), Op("*"), NumTok(7, 0), Op(";")], map[])
         == Success(Parsed(Binary(Add, Num(5), Binary(Mul, Num(6), Num(7))), [Op(";")]))
  {
    var e := Binary(Add, Num(5), Binary(Mul, Num(6), Num(7)));
    PrecedencePrint();
    ExprRoundTrip(e, map[], map[], [Op(";")]);
  }

  /** How `5+6*7` prints. */
  lemma PrecedencePrint()
    ensures var e := Binary(Add, Num(5), Binary(Mul, Num(6), Num(7)));
      && Printable(e, map[])
      && PrintAt(e, map[], 0) + [Op(";")] == [NumTok(5, 0), Op("+"), NumTok(6, 0), Op("*"), NumTok(7, 0), Op(";")]
  {
    var names: map<int, string> := map[];
    var m := Binary(Mul, Num(6), Num(7));
    assert PrintAt(m, names, 5) == [NumTok(6, 0), Op("*"), NumTok(7, 0)];
    assert PrintAt(Binary(Add, Num(5), m), names, 0) == [NumTok(5, 0), Op("+")] + PrintAt(m, names, 5);
  }

  /** `int x;` registers `x` after every name already in the table, at
      8 times the new table size; declaring a name twice is an error at
      the second name. */
  lemma IntDeclaration(x: string, p: nat, q: nat, r: nat, rest: seq<Tok>, locals: Locals)
    ensures ParseStmt([KeywordTok(KwInt, p), IdentTok(x, q), ReservedTok(";", r)] + rest, locals)
         == if x in locals then Failure(ErrorAt(q, "duplicate definitions"))
            else Success(Declared(IntDecl, rest, Declare(locals, x)))
  {
    var ts := [KeywordTok(KwInt, p), IdentTok(x, q), ReservedTok(";", r)] + rest;
    IntDispatch(ts, locals);
    assert ts[1..] == [IdentTok(x, q), ReservedTok(";", r)] + rest;
    IntDeclTail(x, q, r, rest, locals);
  }

  /** A statement that starts with `int` is a declaration. */
  lemma IntDispatch(ts: seq<Tok>, locals: Locals)
    requires |ts| > 0 && IsKeyword(ts[0], KwInt)
    ensures ParseStmt(ts, locals) == IntDeclStmt(ts[1..], locals)
  {
  }

  /** The declaration after its `int`. */
  lemma IntDeclTail(x: string, q: nat, r: nat, rest: seq<Tok>, locals: Locals)
    ensures IntDeclStmt([IdentTok(x, q), ReservedTok(";", r)] + rest, locals)
         == if x in locals then Failure(ErrorAt(q, "duplicate definitions"))
            else Success(Declared(IntDecl, rest, Declare(locals, x)))
  {
    assert ([IdentTok(x, q), ReservedTok(";", r)] + rest)[1..][1..] == rest;
  }

  /** A name that is not followed by `(` is a variable, and must already be
      in the table. */
  lemma VariableLookup(x: string, p: nat, rest: seq<Tok>, locals: Locals)
    requires |rest| > 0 && !IsOp(rest[0], "(")
    ensures ParsePrimary([IdentTok(x, p)] + rest, locals)
         == if x in locals then Success(Parsed(LVar(locals[x]), rest))
            else Failure(ErrorAt(p, "undefined variable"))
  {
    assert ([IdentTok(x, p)] + rest)[1..] == rest;
  }

  /** An optional `for` clause spelt before its closing token and the
      tokens that follow: the clause itself is absent when empty. */
  function ClauseThen(c: Option<Node>, closer: string, rest: seq<Tok>, names: map<int, string>): seq<Tok>
    requires c.Some? ==> Printable(c.value, names)
  {
    if c.Some? then PrintAt(c.value, names, 0) + ([Op(closer)] + rest) else [Op(closer)] + rest
  }

  lemma ForClauseRoundTrip(c: Option<Node>, closer: string, names: map<int, string>, locals: Locals, rest: seq<Tok>)
    requires c.Some? ==> Printable(c.value, names)
    requires NamesAgree(names, locals) && (closer == ";" || closer == ")")
    ensures ForClause(ClauseThen(c, closer, rest, names), closer, locals) == Success(Parsed(c, rest))
  {
    if c.Some? {
      ExprRoundTrip(c.value, names, locals, [Op(closer)] + rest);
    }
  }

  /** `( init ; guard ; after )` followed by `body`, each clause possibly
      empty. */
  function ForTokens(init: Option<Node>, guard: Option<Node>, after: Option<Node>, body: seq<Tok>, names: map<int, string>): seq<Tok>
    requires init.Some? ==> Printable(init.value, names)
    requires guard.Some? ==> Printable(guard.value, names)
    requires after.Some? ==> Printable(after.value, names)
  {
    [Op("(")] + ClauseThen(init, ";", ClauseThen(guard, ";", ClauseThen(after, ")", body, names), names), names)
  }

  /** Each clause of a `for` header may be left out; the body follows the
      `)`. */
  lemma ForHeader(init: Option<Node>, guard: Option<Node>, after: Option<Node>, p: nat,
                  names: map<int, string>, locals: Locals, body: seq<Tok>, stmt: Declared<Node>)
    requires init.Some? ==> Printable(init.value, names)
    requires guard.Some? ==> Printable(guard.value, names)
    requires after.Some? ==> Printable(after.value, names)
    requires NamesAgree(names, locals)
    requires ParseStmt(body, locals) == Success(stmt)
    ensures ParseStmt([KeywordTok(KwFor, p)] + ForTokens(init, guard, after, body, names), locals)
         == Success(Declared(For(init, guard, after, stmt.node), stmt.rest, stmt.locals))
  {
    var c3 := ClauseThen(after, ")", body, names);
    var c2 := ClauseThen(guard, ";", c3, names);
    var ts := ForTokens(init, guard, after, body, names);
    assert ([KeywordTok(KwFor, p)] + ts)[1..] == ts;
    assert ts[1..] == ClauseThen(init, ";", c2, names);
    ForClauseRoundTrip(init, ";", names, locals, c2);
    ForClauseRoundTrip(guard, ";", names, locals, c3);
    ForClauseRoundTrip(after, ")", names, locals, body);
    ForStmtSteps(ts, c2, c3, body, init, guard, after, stmt, locals);
  }

  lemma ForStmtSteps(ts: seq<Tok>, c2: seq<Tok>, c3: seq<Tok>, body: seq<Tok>,
                     init: Option<Node>, guard: Option<Node>, after: Option<Node>, stmt: Declared<Node>, locals: Locals)
    requires |ts| > 0 && IsOp(ts[0], "(")
    requires ForClause(ts[1..], ";", locals) == Success(Parsed(init, c2))
    requires ForClause(c2, ";", locals) == Success(Parsed(guard, c3))
    requires ForClause(c3, ")", locals) == Success(Parsed(after, body))
    requires ParseStmt(body, locals) == Success(stmt)
    ensures ForStmt(ts, locals) == Success(Declared(For(init, guard, after, stmt.node), stmt.rest, stmt.locals))
  {
  }

  /** `int f(int x) {}` */
  function OneParamSource(f: string, x: string): seq<Tok> {
    [KeywordTok(KwInt, 0), IdentTok(f, 0), Op("("), KeywordTok(KwInt, 0), IdentTok(x, 0), Op(")"), Op("{"), Op("}")]
  }

  /** `int f(int x) {}`: the parameter is registered unless the table
      already has it, in which case it keeps its offset and the table is
      unchanged. */
  lemma OneParamFunc(f: string, x: string, rest: seq<Tok>, locals: Locals, m: Locals)
    requires m == if x in locals then locals else Declare(locals, x)
    ensures ParseFunc(OneParamSource(f, x) + rest, locals) == Success(Declared(Func(f, [LVar(m[x])], []), rest, m))
  {
    var body := [Op("{"), Op("}")] + rest;
    var ps := [KeywordTok(KwInt, 0), IdentTok(x, 0), Op(")")] + body;
    var ts := OneParamSource(f, x) + rest;
    assert ts == [KeywordTok(KwInt, 0), IdentTok(f, 0), Op("(")] + ps;
    OneParam(x, body, locals, m);
    EmptyBody(rest, m);
    assert body[1..] == [Op("}")] + rest;
    FuncSteps(ts, f, ps, [LVar(m[x])], body, [], rest, locals, m);
  }

  /** `int x)`: one parameter, registered unless already known. */
  lemma OneParam(x: string, after: seq<Tok>, locals: Locals, m: Locals)
    requires m == if x in locals then locals else Declare(locals, x)
    ensures ParamList([KeywordTok(KwInt, 0), IdentTok(x, 0), Op(")")] + after, locals)
         == Success(Declared([LVar(m[x])], after, m))
  {
    var ps := [KeywordTok(KwInt, 0), IdentTok(x, 0), Op(")")] + after;
    assert ps[1..] == [IdentTok(x, 0), Op(")")] + after;
    assert ps[1..][1..] == [Op(")")] + after;
  }

  /** `}` at once: an empty body. */
  lemma EmptyBody(rest: seq<Tok>, m: Locals)
    ensures StmtList([Op("}")] + rest, m) == Success(Declared([], rest, m))
  {
    assert ([Op("}")] + rest)[1..] == rest;
  }

  /** One table serves the whole program: a parameter name already seen in
      an earlier function keeps the offset it was given there. */
  lemma SharedTable(f: string, g: string, x: string)
    ensures Parse(OneParamSource(f, x) + OneParamSource(g, x) + [EofTok])
         == Success([Func(f, [LVar(8)], []), Func(g, [LVar(8)], [])])
  {
    var ts := OneParamSource(f, x) + (OneParamSource(g, x) + [EofTok]);
    assert ts == OneParamSource(f, x) + OneParamSource(g, x) + [EofTok];
    LaterFunction(g, x);
    EarlierFunction(f, g, x);
  }

  /** The second function, with the table already holding `x`. */
  lemma LaterFunction(g: string, x: string)
    ensures Functions(OneParamSource(g, x) + [EofTok], map[x := 8])
         == Success(Declared([Func(g, [LVar(8)], [])], [EofTok], map[x := 8]))
  {
    var m := map[x := 8];
    var fg := Func(g, [LVar(8)], []);
    OneParamFunc(g, x, [EofTok], m, m);
    assert Functions([EofTok], m) == Success(Declared([], [EofTok], m));
    FunctionsStep(OneParamSource(g, x) + [EofTok], m, fg, [EofTok], m, [], [EofTok], m);
    assert [fg] + [] == [fg];
  }

  /** The first function registers `x` at offset 8, then the second one
      is read with that table. */
  lemma EarlierFunction(f: string, g: string, x: string)
    requires Functions(OneParamSource(g, x) + [EofTok], map[x := 8])
          == Success(Declared([Func(g, [LVar(8)], [])], [EofTok], map[x := 8]))
    ensures Functions(OneParamSource(f, x) + (OneParamSource(g, x) + [EofTok]), map[])
         == Success(Declared([Func(f, [LVar(8)], []), Func(g, [LVar(8)], [])], [EofTok], map[x := 8]))
  {
    var second := OneParamSource(g, x) + [EofTok];
    var m := map[x := 8];
    var ff := Func(f, [LVar(8)], []);
    var fg := Func(g, [LVar(8)], []);
    assert Declare(map[], x) == m;
    OneParamFunc(f, x, second, map[], m);
    FunctionsStep(OneParamSource(f, x) + second, map[], ff, second, m, [fg], [EofTok], m);
    assert [ff] + [fg] == [ff, fg];
  }

  lemma FuncSteps(ts: seq<Tok>, f: string, ps: seq<Tok>, params: seq<Node>, body: seq<Tok>,
                  stmts: seq<Node>, rest: seq<Tok>, locals: Locals, m: Locals)
    requires ts == [KeywordTok(KwInt, 0), IdentTok(f, 0), Op("(")] + ps && |ps| > 0 && !IsOp(ps[0], ")")
    requires ParamList(ps, locals) == Success(Declared(params, body, m))
    requires |body| > 0 && IsOp(body[0], "{")
    requires StmtList(body[1..], m) == Success(Declared(stmts, rest, m))
    ensures ParseFunc(ts, locals) == Success(Declared(Func(f, params, stmts), rest, m))
  {
    assert ts[0] == KeywordTok(KwInt, 0) && ts[1] == IdentTok(f, 0) && ts[2] == Op("(") && ts[3..] == ps;
    FuncHeader(ts, f);
    assert ts[1..][1..] == ts[2..];
    assert Expect(body, "{") == Success(body[1..]);
  }

  /** `int f (`: the header a function definition starts with. */
  lemma FuncHeader(ts: seq<Tok>, f: string)
    requires |ts| >= 3 && ts[0] == KeywordTok(KwInt, 0) && ts[1] == IdentTok(f, 0) && IsOp(ts[2], "(")
    ensures ExpectKind(ts, "int") == Success(Parsed(ts[0], ts[1..]))
    ensures ExpectKind(ts[1..], "ident") == Success(Parsed(IdentTok(f, 0), ts[2..]))
    ensures Expect(ts[2..], "(") == Success(ts[3..])
  {
    assert ts[1..][0] == ts[1] && ts[1..][1..] == ts[2..];
    assert ts[2..][0] == ts[2] && ts[2..][1..] == ts[3..];
  }

  lemma FunctionsStep(ts: seq<Tok>, locals: Locals, f: Node, rest: seq<Tok>, m: Locals,
                      fs: seq<Node>, rest2: seq<Tok>, m2: Locals)
    requires |ts| > 0 && !ts[0].EofTok?
    requires ParseFunc(ts, locals) == Success(Declared(f, rest, m))
    requires Functions(rest, m) == Success(Declared(fs, rest2, m2))
    ensures Functions(ts, locals) == Success(Declared([f] + fs, rest2, m2))
  {
  }
}
