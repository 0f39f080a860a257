/** The recursive-descent parser: a token list to a list of function
    definitions. One function per grammar level; each takes the unread
    tokens and returns the node it built with the tokens it left. One
    table of local variables is shared by the whole program: expressions
    read it, declarations and parameters extend it. Every position-pointing
    diagnostic ends the parse. */
module Parser {
  import opened Wrappers
  import opened Ast

  datatype Keyword = KwReturn | KwIf | KwElse | KwWhile | KwFor | KwInt

  function KeywordName(w: Keyword): string {
    match w
    case KwReturn => "return"
    case KwIf => "if"
    case KwElse => "else"
    case KwWhile => "while"
    case KwFor => "for"
    case KwInt => "int"
  }

  /** The tokens the parser reads. Keywords have a kind of their own, named
      by the keyword; the end marker reports position -1. */
  datatype Tok =
    | EofTok
    | ReservedTok(str: string, pos: nat)
    | IdentTok(str: string, pos: nat)
    | NumTok(val: nat, pos: nat)
    | KeywordTok(word: Keyword, pos: nat)
  {
    function Pos(): int {
      if EofTok? then -1 else pos
    }

    function Kind(): string {
      match this
      case EofTok => "eof"
      case ReservedTok(_, _) => "reserved"
      case IdentTok(_, _) => "ident"
      case NumTok(_, _) => "num"
      case KeywordTok(w, _) => KeywordName(w)
    }
  }

  /** Local variable name to its offset below the frame pointer. */
  type Locals = map<string, int>

  datatype Parsed<T> = Parsed(node: T, rest: seq<Tok>)
  datatype Declared<T> = Declared(node: T, rest: seq<Tok>, locals: Locals)

  const NoTokens := Fatal("there are no tokens")

  /** The n-th name registered sits at offset 8n: offsets are positive
      multiples of 8, none above 8 times the number of names, and no two
      names share one. */
  predicate WfTable(m: Locals) {
    OffsetsInFrame(m, |m|) && DistinctOffsets(m)
  }

  predicate OffsetsInFrame(m: Locals, count: int) {
    forall x | x in m :: m[x] % 8 == 0 && 8 <= m[x] <= 8 * count
  }

  predicate DistinctOffsets(m: Locals) {
    forall x, y | x in m && y in m && x != y :: m[x] != m[y]
  }

  /** `m'` keeps every name of `m` at its offset. */
  predicate Extends(m: Locals, m': Locals) {
    forall x | x in m :: x in m' && m'[x] == m[x]
  }

  /** Registers a new name after all existing ones. */
  function Declare(m: Locals, name: string): (m': Locals)
    requires name !in m
    ensures m'.Keys == m.Keys + {name} && |m'| == |m| + 1
    ensures Extends(m, m') && m'[name] == 8 * |m'|
    ensures WfTable(m) ==> WfTable(m') && forall x | x in m :: m[x] < m'[name]
  {
    var m' := m[name := (|m| + 1) * 8];
    assert m'.Keys == m.Keys + {name};
    assert |m'.Keys| == |m.Keys| + 1;
    assert WfTable(m) ==> WfTable(m') by {
      if WfTable(m) {
        DeclareKeepsTable(m, name);
      }
    }
    m'
  }

  lemma DeclareKeepsTable(m: Locals, name: string)
    requires WfTable(m) && name !in m
    ensures WfTable(m[name := (|m| + 1) * 8])
  {
    var m' := m[name := (|m| + 1) * 8];
    assert m'.Keys == m.Keys + {name};
    assert |m'| == |m| + 1;
    DeclareInFrame(m, name, |m|);
    DeclareDistinct(m, name, |m|);
  }

  lemma DeclareInFrame(m: Locals, name: string, k: nat)
    requires OffsetsInFrame(m, k) && name !in m
    ensures OffsetsInFrame(m[name := (k + 1) * 8], k + 1)
  {
    var m' := m[name := (k + 1) * 8];
    forall x | x in m' ensures m'[x] % 8 == 0 && 8 <= m'[x] <= 8 * (k + 1) {
      if x != name {
        assert m'[x] == m[x];
      }
    }
  }

  lemma DeclareDistinct(m: Locals, name: string, k: nat)
    requires OffsetsInFrame(m, k) && DistinctOffsets(m) && name !in m
    ensures DistinctOffsets(m[name := (k + 1) * 8])
  {
    var m' := m[name := (k + 1) * 8];
    forall x, y | x in m' && y in m' && x != y ensures m'[x] != m'[y] {
      if x == name {
        assert m'[y] == m[y];
      } else if y == name {
        assert m'[x] == m[x];
      } else {
        assert m'[x] == m[x] && m'[y] == m[y];
      }
    }
  }

  lemma Grow(n: Node, m: Locals, m': Locals)
    requires UsesOnly(n, m.Values) && Extends(m, m')
    ensures UsesOnly(n, m'.Values)
  {
    ValuesGrow(m, m');
    UsesOnlyGrows(n, m.Values, m'.Values);
  }

  lemma GrowAll(ns: seq<Node>, m: Locals, m': Locals)
    requires AllUseOnly(ns, m.Values) && Extends(m, m')
    ensures AllUseOnly(ns, m'.Values)
  {
    forall i | 0 <= i < |ns| ensures UsesOnly(ns[i], m'.Values) {
      Grow(ns[i], m, m');
    }
  }

  lemma ValuesGrow(m: Locals, m': Locals)
    requires Extends(m, m')
    ensures m.Values <= m'.Values
  {
    forall v | v in m.Values ensures v in m'.Values {
      var x :| x in m && m[x] == v;
      assert m'[x] == v;
    }
  }

  /** `nextToken`: the first unread token; the empty list is fatal. */
  function Next(ts: seq<Tok>): (r: Result<Tok>)
    ensures r.Success? <==> |ts| > 0
    ensures r.Success? ==> r.value == ts[0]
    ensures r.Failure? ==> r.error == NoTokens
  {
    if |ts| == 0 then Failure(NoTokens) else Success(ts[0])
  }

  predicate IsOp(t: Tok, op: string) {
    t.ReservedTok? && t.str == op
  }

  predicate IsKeyword(t: Tok, w: Keyword) {
    t.KeywordTok? && t.word == w
  }

  /** `expect`: the next token must be the punctuator `op`. */
  function Expect(ts: seq<Tok>, op: string): (r: Result<seq<Tok>>)
    ensures r.Success? <==> |ts| > 0 && IsOp(ts[0], op)
    ensures r.Success? ==> r.value == ts[1..]
    ensures |ts| == 0 ==> r.error == NoTokens
    ensures |ts| > 0 && r.Failure? ==> r.error == ErrorAt(ts[0].Pos(), "could not find " + op)
  {
    var t :- Next(ts);
    if IsOp(t, op) then Success(ts[1..])
    else Failure(ErrorAt(t.Pos(), "could not find " + op))
  }

  /** `expectKind`: the next token must be of kind `kind`. */
  function ExpectKind(ts: seq<Tok>, kind: string): (r: Result<Parsed<Tok>>)
    ensures r.Success? <==> |ts| > 0 && ts[0].Kind() == kind
    ensures r.Success? ==> r.value == Parsed(ts[0], ts[1..])
    ensures |ts| == 0 ==> r.error == NoTokens
    ensures |ts| > 0 && r.Failure? ==> r.error == ErrorAt(ts[0].Pos(), "expected " + kind)
  {
    var t :- Next(ts);
    if t.Kind() == kind then Success(Parsed(t, ts[1..]))
    else Failure(ErrorAt(t.Pos(), "expected " + kind))
  }

  // Expressions. Each level consumes at least one token when it succeeds,
  // and only refers to variables already in the table.

  /** `expr = assign` */
  function ParseExpr(ts: seq<Tok>, locals: Locals): (r: Result<Parsed<Node>>)
    ensures r.Success? ==> |r.value.rest| < |ts| && UsesOnly(r.value.node, locals.Values)
    decreases |ts|, 9
  {
    ParseAssign(ts, locals)
  }

  /** `assign = equality ("=" assign)?`, so assignment groups to the right. */
  function ParseAssign(ts: seq<Tok>, locals: Locals): (r: Result<Parsed<Node>>)
    ensures r.Success? ==> |r.value.rest| < |ts| && UsesOnly(r.value.node, locals.Values)
    decreases |ts|, 8
  {
    var lhs :- ParseEquality(ts, locals);
    var t :- Next(lhs.rest);
    if IsOp(t, "=") then
      var rhs :- ParseAssign(lhs.rest[1..], locals);
      Success(Parsed(Assign(lhs.node, rhs.node), rhs.rest))
    else Success(lhs)
  }

  /** `equality = relational ("==" relational | "!=" relational)*` */
  function ParseEquality(ts: seq<Tok>, locals: Locals): (r: Result<Parsed<Node>>)
    ensures r.Success? ==> |r.value.rest| < |ts| && UsesOnly(r.value.node, locals.Values)
    decreases |ts|, 7
  {
    var lhs :- ParseRelational(ts, locals);
    EqualityTail(lhs.node, lhs.rest, locals)
  }

  /** The loop of `equality`, with the operand built so far. */
  function EqualityTail(lhs: Node, ts: seq<Tok>, locals: Locals): (r: Result<Parsed<Node>>)
    ensures r.Success? ==> |r.value.rest| <= |ts|
    ensures r.Success? && UsesOnly(lhs, locals.Values) ==> UsesOnly(r.value.node, locals.Values)
    decreases |ts|, 0
  {
    var t :- Next(ts);
    if IsOp(t, "==") then
      var rhs :- ParseRelational(ts[1..], locals);
      EqualityTail(Binary(Equ, lhs, rhs.node), rhs.rest, locals)
    else if IsOp(t, "!=") then
      var rhs :- ParseRelational(ts[1..], locals);
      EqualityTail(Binary(Neq, lhs, rhs.node), rhs.rest, locals)
    else Success(Parsed(lhs, ts))
  }

  /** `relational = add ("<" add | "<=" add | ">" add | ">=" add)*` */
  function ParseRelational(ts: seq<Tok>, locals: Locals): (r: Result<Parsed<Node>>)
    ensures r.Success? ==> |r.value.rest| < |ts| && UsesOnly(r.value.node, locals.Values)
    decreases |ts|, 6
  {
    var lhs :- ParseAdd(ts, locals);
    RelationalTail(lhs.node, lhs.rest, locals)
  }

  /** The loop of `relational`; `>` and `>=` swap their operands. */
  function RelationalTail(lhs: Node, ts: seq<Tok>, locals: Locals): (r: Result<Parsed<Node>>)
    ensures r.Success? ==> |r.value.rest| <= |ts|
    ensures r.Success? && UsesOnly(lhs, locals.Values) ==> UsesOnly(r.value.node, locals.Values)
    decreases |ts|, 0
  {
    var t :- Next(ts);
    if IsOp(t, "<") then
      var rhs :- ParseAdd(ts[1..], locals);
      RelationalTail(Binary(Lss, lhs, rhs.node), rhs.rest, locals)
    else if IsOp(t, "<=") then
      var rhs :- ParseAdd(ts[1..], locals);
      RelationalTail(Binary(Leq, lhs, rhs.node), rhs.rest, locals)
    else if IsOp(t, ">") then
      var rhs :- ParseAdd(ts[1..], locals);
      RelationalTail(Binary(Lss, rhs.node, lhs), rhs.rest, locals)
    else if IsOp(t, ">=") then
      var rhs :- ParseAdd(ts[1..], locals);
      RelationalTail(Binary(Leq, rhs.node, lhs), rhs.rest, locals)
    else Success(Parsed(lhs, ts))
  }

  /** `add = mul ("+" mul | "-" mul)*` */
  function ParseAdd(ts: seq<Tok>, locals: Locals): (r: Result<Parsed<Node>>)
    ensures r.Success? ==> |r.value.rest| < |ts| && UsesOnly(r.value.node, locals.Values)
    decreases |ts|, 5
  {
    var lhs :- ParseMul(ts, locals);
    AddTail(lhs.node, lhs.rest, locals)
  }

  function AddTail(lhs: Node, ts: seq<Tok>, locals: Locals): (r: Result<Parsed<Node>>)
    ensures r.Success? ==> |r.value.rest| <= |ts|
    ensures r.Success? && UsesOnly(lhs, locals.Values) ==> UsesOnly(r.value.node, locals.Values)
    decreases |ts|, 0
  {
    var t :- Next(ts);
    if IsOp(t, "+") then
      var rhs :- ParseMul(ts[1..], locals);
      AddTail(Binary(Add, lhs, rhs.node), rhs.rest, locals)
    else if IsOp(t, "-") then
      var rhs :- ParseMul(ts[1..], locals);
      AddTail(Binary(Sub, lhs, rhs.node), rhs.rest, locals)
    else Success(Parsed(lhs, ts))
  }

  /** `mul = unary ("*" unary | "/" unary)*` */
  function ParseMul(ts: seq<Tok>, locals: Locals): (r: Result<Parsed<Node>>)
    ensures r.Success? ==> |r.value.rest| < |ts| && UsesOnly(r.value.node, locals.Values)
    decreases |ts|, 4
  {
    var lhs :- ParseUnary(ts, locals);
    MulTail(lhs.node, lhs.rest, locals)
  }

  function MulTail(lhs: Node, ts: seq<Tok>, locals: Locals): (r: Result<Parsed<Node>>)
    ensures r.Success? ==> |r.value.rest| <= |ts|
    ensures r.Success? && UsesOnly(lhs, locals.Values) ==> UsesOnly(r.value.node, locals.Values)
    decreases |ts|, 0
  {
    var t :- Next(ts);
    if IsOp(t, "*") then
      var rhs :- ParseUnary(ts[1..], locals);
      MulTail(Binary(Mul, lhs, rhs.node), rhs.rest, locals)
    else if IsOp(t, "/") then
      var rhs :- ParseUnary(ts[1..], locals);
      MulTail(Binary(Div, lhs, rhs.node), rhs.rest, locals)
    else Success(Parsed(lhs, ts))
  }

  /** `unary`: a leading `+` is dropped, a leading `-` subtracts a primary
      from zero, `*` and `&` nest. */
  function ParseUnary(ts: seq<Tok>, locals: Locals): (r: Result<Parsed<Node>>)
    ensures r.Success? ==> |r.value.rest| < |ts| && UsesOnly(r.value.node, locals.Values)
    decreases |ts|, 3
  {
    var t :- Next(ts);
    if IsOp(t, "+") then ParsePrimary(ts[1..], locals)
    else if IsOp(t, "-") then
      var operand :- ParsePrimary(ts[1..], locals);
      Success(Parsed(Binary(Sub, Num(0), operand.node), operand.rest))
    else if IsOp(t, "*") then
      var operand :- ParseUnary(ts[1..], locals);
      Success(Parsed(Deref(operand.node), operand.rest))
    else if IsOp(t, "&") then
      var operand :- ParseUnary(ts[1..], locals);
      Success(Parsed(Addr(operand.node), operand.rest))
    else ParsePrimary(ts, locals)
  }

  /** `primary = num | ident ("(" args? ")")? | "(" expr ")"`. A name not
      followed by `(` must already be in the table. */
  function ParsePrimary(ts: seq<Tok>, locals: Locals): (r: Result<Parsed<Node>>)
    ensures r.Success? ==> |r.value.rest| < |ts| && UsesOnly(r.value.node, locals.Values)
    decreases |ts|, 2
  {
    var t :- Next(ts);
    if IsOp(t, "(") then
      var e :- ParseExpr(ts[1..], locals);
      var rest :- Expect(e.rest, ")");
      Success(Parsed(e.node, rest))
    else
      var rest := ts[1..];
      match t
      case IdentTok(name, pos) =>
        var u :- Next(rest);
        if IsOp(u, "(") then
          var args :- CallArgs(rest[1..], locals);
          Success(Parsed(Call(name, args.node), args.rest))
        else if name !in locals then Failure(ErrorAt(pos, "undefined variable"))
        else Success(Parsed(LVar(locals[name]), rest))
      case NumTok(v, _) => Success(Parsed(Num(v), rest))
      case _ => Failure(ErrorAt(t.Pos(), "unexpected token " + t.Kind()))
  }

  /** The arguments of a call, after its `(`: either `)` at once, or
      expressions separated by `,` and closed by `)`. */
  function CallArgs(ts: seq<Tok>, locals: Locals): (r: Result<Parsed<seq<Node>>>)
    ensures r.Success? ==> |r.value.rest| < |ts| && AllUseOnly(r.value.node, locals.Values)
    decreases |ts|, 11
  {
    var t :- Next(ts);
    if IsOp(t, ")") then Success(Parsed([], ts[1..]))
    else ArgList(ts, locals)
  }

  function ArgList(ts: seq<Tok>, locals: Locals): (r: Result<Parsed<seq<Node>>>)
    ensures r.Success? ==> |r.value.rest| < |ts| && AllUseOnly(r.value.node, locals.Values)
    ensures r.Success? ==> |r.value.node| >= 1
    decreases |ts|, 10
  {
    var arg :- ParseExpr(ts, locals);
    var t :- Next(arg.rest);
    if IsOp(t, ",") then
      var more :- ArgList(arg.rest[1..], locals);
      Success(Parsed([arg.node] + more.node, more.rest))
    else
      var rest :- Expect(arg.rest, ")");
      Success(Parsed([arg.node], rest))
  }

  /** One clause of a `for` header: empty when `closer` comes at once,
      otherwise an expression followed by `closer`. */
  function ForClause(ts: seq<Tok>, closer: string, locals: Locals): (r: Result<Parsed<Option<Node>>>)
    ensures r.Success? ==> |r.value.rest| < |ts|
    ensures r.Success? && r.value.node.Some? ==> UsesOnly(r.value.node.value, locals.Values)
    ensures r.Success? ==> (r.value.node.None? <==> IsOp(ts[0], closer))
  {
    var t :- Next(ts);
    if IsOp(t, closer) then Success(Parsed(None, ts[1..]))
    else
      var e :- ParseExpr(ts, locals);
      var rest :- Expect(e.rest, closer);
      Success(Parsed(Some(e.node), rest))
  }

  // Statements. These may declare variables, so they return the table.

  /** What every statement form promises on success: it consumed at least
      one token, the table only grew (and stays well formed), and the
      statement refers only to variables in the resulting table. */
  predicate StmtParsed(ts: seq<Tok>, locals: Locals, r: Result<Declared<Node>>) {
    r.Success? ==>
      && |r.value.rest| < |ts|
      && Extends(locals, r.value.locals)
      && UsesOnly(r.value.node, r.value.locals.Values)
      && (WfTable(locals) ==> WfTable(r.value.locals))
  }

  /** `stmt`: a block, `return`, `if`, `while`, `for`, an `int`
      declaration, or an expression followed by `;`. Each form after the
      first token is its own function below. */
  function ParseStmt(ts: seq<Tok>, locals: Locals): (r: Result<Declared<Node>>)
    ensures StmtParsed(ts, locals, r)
    decreases |ts|, 1
  {
    var t :- Next(ts);
    if IsOp(t, "{") then
      var body :- StmtList(ts[1..], locals);
      Success(Declared(Block(body.node), body.rest, body.locals))
    else if IsKeyword(t, KwReturn) then ReturnStmt(ts[1..], locals)
    else if IsKeyword(t, KwIf) then IfStmt(ts[1..], locals)
    else if IsKeyword(t, KwWhile) then WhileStmt(ts[1..], locals)
    else if IsKeyword(t, KwFor) then ForStmt(ts[1..], locals)
    else if IsKeyword(t, KwInt) then IntDeclStmt(ts[1..], locals)
    else
      var e :- ParseExpr(ts, locals);
      var rest :- Expect(e.rest, ";");
      Success(Declared(e.node, rest, locals))
  }

  /** `"return" expr ";"`, after the keyword. */
  function ReturnStmt(ts: seq<Tok>, locals: Locals): (r: Result<Declared<Node>>)
    ensures StmtParsed(ts, locals, r) && (r.Success? ==> r.value.node.Return?)
  {
    var e :- ParseExpr(ts, locals);
    var rest :- Expect(e.rest, ";");
    Success(Declared(Return(e.node), rest, locals))
  }

  /** `"if" "(" expr ")" stmt ("else" stmt)?`, after the keyword. */
  function IfStmt(ts: seq<Tok>, locals: Locals): (r: Result<Declared<Node>>)
    ensures StmtParsed(ts, locals, r) && (r.Success? ==> r.value.node.If?)
    decreases |ts|, 0
  {
    var r1 :- Expect(ts, "(");
    var cond :- ParseExpr(r1, locals);
    var r2 :- Expect(cond.rest, ")");
    var yes :- ParseStmt(r2, locals);
    var u :- Next(yes.rest);
    if IsKeyword(u, KwElse) then
      var no :- ParseStmt(yes.rest[1..], yes.locals);
      Grow(cond.node, locals, no.locals);
      Grow(yes.node, yes.locals, no.locals);
      Success(Declared(If(cond.node, yes.node, Some(no.node)), no.rest, no.locals))
    else
      Grow(cond.node, locals, yes.locals);
      Success(Declared(If(cond.node, yes.node, None), yes.rest, yes.locals))
  }

  /** `"while" "(" expr ")" stmt`, after the keyword. */
  function WhileStmt(ts: seq<Tok>, locals: Locals): (r: Result<Declared<Node>>)
    ensures StmtParsed(ts, locals, r) && (r.Success? ==> r.value.node.While?)
    decreases |ts|, 0
  {
    var r1 :- Expect(ts, "(");
    var cond :- ParseExpr(r1, locals);
    var r2 :- Expect(cond.rest, ")");
    var body :- ParseStmt(r2, locals);
    Grow(cond.node, locals, body.locals);
    Success(Declared(While(cond.node, body.node), body.rest, body.locals))
  }

  /** `"for" "(" expr? ";" expr? ";" expr? ")" stmt`, after the keyword. */
  function ForStmt(ts: seq<Tok>, locals: Locals): (r: Result<Declared<Node>>)
    ensures StmtParsed(ts, locals, r) && (r.Success? ==> r.value.node.For?)
    decreases |ts|, 0
  {
    var r1 :- Expect(ts, "(");
    var init :- ForClause(r1, ";", locals);
    var guard :- ForClause(init.rest, ";", locals);
    var after :- ForClause(guard.rest, ")", locals);
    var body :- ParseStmt(after.rest, locals);
    GrowClause(init.node, locals, body.locals);
    GrowClause(guard.node, locals, body.locals);
    GrowClause(after.node, locals, body.locals);
    Success(Declared(For(init.node, guard.node, after.node, body.node), body.rest, body.locals))
  }

  /** `"int" ident ";"`, after the keyword. The name is checked for a
      previous definition only once the `;` has been read. */
  function IntDeclStmt(ts: seq<Tok>, locals: Locals): (r: Result<Declared<Node>>)
    ensures StmtParsed(ts, locals, r) && (r.Success? ==> r.value.node.IntDecl?)
  {
    var name :- ExpectKind(ts, "ident");
    var rest :- Expect(name.rest, ";");
    var x := name.node.str;
    if x in locals then Failure(ErrorAt(name.node.pos, "duplicate definitions"))
    else Success(Declared(IntDecl, rest, Declare(locals, x)))
  }

  lemma GrowClause(c: Option<Node>, m: Locals, m': Locals)
    requires c.Some? ==> UsesOnly(c.value, m.Values)
    requires Extends(m, m')
    ensures c.Some? ==> UsesOnly(c.value, m'.Values)
  {
    if c.Some? {
      Grow(c.value, m, m');
    }
  }

  /** `stmt*` up to and including the closing `}`. */
  function StmtList(ts: seq<Tok>, locals: Locals): (r: Result<Declared<seq<Node>>>)
    ensures r.Success? ==> |r.value.rest| < |ts|
    ensures r.Success? ==> Extends(locals, r.value.locals) && AllUseOnly(r.value.node, r.value.locals.Values)
    ensures r.Success? && WfTable(locals) ==> WfTable(r.value.locals)
    decreases |ts|, 2
  {
    var t :- Next(ts);
    if IsOp(t, "}") then Success(Declared([], ts[1..], locals))
    else
      var first :- ParseStmt(ts, locals);
      var more :- StmtList(first.rest, first.locals);
      Grow(first.node, first.locals, more.locals);
      Success(Declared([first.node] + more.node, more.rest, more.locals))
  }

  /** The parameter list after `(`: `int name` pairs separated by `,` and
      closed by `)`. A name not yet in the table is registered; one that is
      keeps its offset. */
  function ParamList(ts: seq<Tok>, locals: Locals): (r: Result<Declared<seq<Node>>>)
    ensures r.Success? ==> |r.value.rest| < |ts| && |r.value.node| >= 1
    ensures r.Success? ==> Extends(locals, r.value.locals) && AllUseOnly(r.value.node, r.value.locals.Values)
    ensures r.Success? ==> forall i | 0 <= i < |r.value.node| :: r.value.node[i].LVar?
    ensures r.Success? && WfTable(locals) ==> WfTable(r.value.locals)
    decreases |ts|
  {
    var name :- ParamHead(ts);
    var x := name.node.str;
    var m := if x in locals then locals else Declare(locals, x);
    var t := name.rest[0];
    if IsOp(t, ",") then
      var more :- ParamList(name.rest[1..], m);
      Success(ConsParam(locals, x, m, more))
    else
      var rest :- Expect(name.rest, ")");
      ParamLast(locals, x, m);
      Success(Declared([LVar(m[x])], rest, m))
  }

  /** One parameter's `int name`, failing as `ParamList` does when the
      tokens end right after it. */
  function ParamHead(ts: seq<Tok>): (r: Result<Parsed<Tok>>)
    ensures r.Success? ==> |ts| >= 3 && r.value == Parsed(ts[1], ts[2..]) && ts[1].IdentTok?
  {
    var ty :- ExpectKind(ts, "int");
    var name :- ExpectKind(ty.rest, "ident");
    var _ :- Next(name.rest);
    Success(name)
  }

  /** The parameter `x` in front of the parameters parsed after it. */
  function ConsParam(locals: Locals, x: string, m: Locals, more: Declared<seq<Node>>): (r: Declared<seq<Node>>)
    requires m == if x in locals then locals else Declare(locals, x)
    requires Extends(m, more.locals) && AllUseOnly(more.node, more.locals.Values)
    requires forall i | 0 <= i < |more.node| :: more.node[i].LVar?
    requires WfTable(m) ==> WfTable(more.locals)
    ensures r.rest == more.rest && |r.node| == |more.node| + 1
    ensures Extends(locals, r.locals) && AllUseOnly(r.node, r.locals.Values)
    ensures forall i | 0 <= i < |r.node| :: r.node[i].LVar?
    ensures WfTable(locals) ==> WfTable(r.locals)
  {
    ParamCons(locals, x, m, more.node, more.locals);
    Declared([LVar(m[x])] + more.node, more.rest, more.locals)
  }

  /** A parameter in front of the ones after it: the table grows from the
      caller's through the one holding the parameter to the final one. */
  lemma ParamCons(locals: Locals, x: string, m: Locals, ns: seq<Node>, m2: Locals)
    requires m == if x in locals then locals else Declare(locals, x)
    requires Extends(m, m2) && AllUseOnly(ns, m2.Values)
    requires forall i | 0 <= i < |ns| :: ns[i].LVar?
    requires WfTable(m) ==> WfTable(m2)
    ensures Extends(locals, m2) && AllUseOnly([LVar(m[x])] + ns, m2.Values)
    ensures forall i | 0 <= i < |ns| + 1 :: ([LVar(m[x])] + ns)[i].LVar?
    ensures WfTable(locals) ==> WfTable(m2)
  {
    Grow(LVar(m[x]), m, m2);
    var all := [LVar(m[x])] + ns;
    forall i | 0 <= i < |all|
      ensures UsesOnly(all[i], m2.Values) && all[i].LVar?
    {
      if i > 0 {
        assert all[i] == ns[i - 1];
      }
    }
  }

  /** The last parameter: the table it leaves extends the caller's and
      holds the parameter's offset. */
  lemma ParamLast(locals: Locals, x: string, m: Locals)
    requires m == if x in locals then locals else Declare(locals, x)
    ensures Extends(locals, m) && x in m && AllUseOnly([LVar(m[x])], m.Values)
    ensures WfTable(locals) ==> WfTable(m)
  {
    assert [LVar(m[x])][0] == LVar(m[x]);
  }

  /** `func = "int" ident "(" params? ")" "{" stmt* "}"` */
  function ParseFunc(ts: seq<Tok>, locals: Locals): (r: Result<Declared<Node>>)
    ensures r.Success? ==> |r.value.rest| < |ts| && r.value.node.Func?
    ensures r.Success? ==> Extends(locals, r.value.locals) && UsesOnly(r.value.node, r.value.locals.Values)
    ensures r.Success? && WfTable(locals) ==> WfTable(r.value.locals)
  {
    var ty :- ExpectKind(ts, "int");
    var name :- ExpectKind(ty.rest, "ident");
    var r1 :- Expect(name.rest, "(");
    var t :- Next(r1);
    var params :- if IsOp(t, ")") then Success(Declared([], r1[1..], locals)) else ParamList(r1, locals);
    var r2 :- Expect(params.rest, "{");
    var body :- StmtList(r2, params.locals);
    GrowAll(params.node, params.locals, body.locals);
    Success(Declared(Func(name.node.str, params.node, body.node), body.rest, body.locals))
  }

  /** `program = func*`, until the end marker. */
  function Functions(ts: seq<Tok>, locals: Locals): (r: Result<Declared<seq<Node>>>)
    ensures r.Success? ==> forall i | 0 <= i < |r.value.node| :: r.value.node[i].Func?
    ensures r.Success? ==> Extends(locals, r.value.locals) && AllUseOnly(r.value.node, r.value.locals.Values)
    ensures r.Success? && WfTable(locals) ==> WfTable(r.value.locals)
    decreases |ts|
  {
    if |ts| == 0 then Failure(Fatal("no token to read the kind of"))
    else if ts[0].EofTok? then Success(Declared([], ts, locals))
    else
      var f :- ParseFunc(ts, locals);
      var more :- Functions(f.rest, f.locals);
      Grow(f.node, f.locals, more.locals);
      Success(Declared([f.node] + more.node, more.rest, more.locals))
  }

  /** `parse`: a program is a list of function definitions whose local
      variables all live in one table. */
  function Parse(ts: seq<Tok>): (r: Result<seq<Node>>)
    ensures r.Success? ==> forall i | 0 <= i < |r.value| :: r.value[i].Func?
    ensures r.Success? ==> exists m :: WfTable(m) && AllUseOnly(r.value, m.Values)
  {
    var fs :- Functions(ts, map[]);
    Success(fs.node)
  }
}
