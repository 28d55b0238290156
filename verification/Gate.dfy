/**
 The gate at the top of every contract's view, and the rewrite that moves a caller's predicates
 below it: what the rewrite keeps of a query's meaning, and what it lets through the gate.
 */
module Gates {
  import opened Wrappers
  import opened Rows
  import opened Order

  // ── expressions and plans ───────────────────────────────────────────────────

  datatype Unary = Not | IsNull | IsNotNull | IsTrue | IsFalse | IsNotTrue | IsNotFalse | IsUnknown | IsNotUnknown

  datatype Binary =
    | Eq | NotEq | Lt | LtEq | Gt | GtEq | And | Or | IsDistinctFrom | IsNotDistinctFrom
    | Arithmetic(name: string)

  datatype Expr =
    | Col(name: string)
    | OuterCol(name: string)
    | Lit(value: Value)
    | Un(un: Unary, arg: Expr)
    | Bin(op: Binary, left: Expr, right: Expr)
    | TryCast(arg: Expr, to: string)
    | Cast(arg: Expr, to: string)
    | Between(arg: Expr, low: Expr, high: Expr, negated: bool)
    | InList(arg: Expr, list: seq<Expr>, negated: bool)
    | Like(arg: Expr, pattern: Expr, negated: bool, escape: Option<char>)
    | Call(f: string, args: seq<Expr>)
    | Exists(subquery: Plan, negated: bool)

  datatype Plan =
    | Scan(contract: string, table: string)
    | Filter(test: Expr, input: Plan)
    | Gate(gated: string, compilationHash: string, input: Plan)
    | Project(names: seq<string>, exprs: seq<Expr>, input: Plan)
    | Node(operator: string, inputs: seq<Plan>)

  // ── evaluation ──────────────────────────────────────────────────────────────

  datatype Error = CastFailed | CallFailed | LikeFailed | NodeFailed

  /** What is outside: the data, and the functions that may fail (they give nothing when they do).
      `lazy` says whether AND and OR leave their right side unevaluated when the left decides. */
  datatype Env = Env(
    lazy: bool,
    cast: (Value, string) -> Option<Value>,
    call: (string, seq<Value>) -> Option<Value>,
    like: (string, string) -> bool,
    likeEscaped: (string, string, char) -> Option<bool>,
    scan: (string, string) -> seq<Row>,
    node: (string, seq<seq<Row>>) -> Option<seq<Row>>)

  function Negate(v: Value): Value {
    if v.Bool? then Bool(!v.b) else Null
  }

  function Negated(v: Value, negated: bool): Value {
    if negated then Negate(v) else v
  }

  function Conjoin(a: Value, b: Value): Value {
    if a == Bool(false) || b == Bool(false) then Bool(false)
    else if a == Bool(true) && b == Bool(true) then Bool(true)
    else Null
  }

  function Disjoin(a: Value, b: Value): Value {
    Negate(Conjoin(Negate(a), Negate(b)))
  }

  function UnaryOf(op: Unary, v: Value): Value {
    match op
    case Not => Negate(v)
    case IsNull => Bool(v == Null)
    case IsNotNull => Bool(v != Null)
    case IsTrue => Bool(v == Bool(true))
    case IsFalse => Bool(v == Bool(false))
    case IsNotTrue => Bool(v != Bool(true))
    case IsNotFalse => Bool(v != Bool(false))
    case IsUnknown => Bool(!v.Bool?)
    case IsNotUnknown => Bool(v.Bool?)
  }

  /** Whether `a` is less than `b`; nothing when either is null. The planner gives both sides of a
      comparison one type; of values of two types it would be nothing too. */
  function Less(a: Value, b: Value): Option<bool> {
    match (a, b)
    case (Bool(x), Bool(y)) => Some(!x && y)
    case (Int(x), Int(y)) => Some(x < y)
    case (Real(x), Real(y)) => Some(x < y)
    case (Str(x), Str(y)) => Some(Before(x, y))
    case _ => None
  }

  function Compare(op: Binary, a: Value, b: Value): Value {
    var (l, g) := (Less(a, b), Less(b, a));
    if op == IsDistinctFrom then Bool(a != b)
    else if op == IsNotDistinctFrom then Bool(a == b)
    else if l.None? || g.None? then Null
    else
      match op
      case Eq => Bool(a == b)
      case NotEq => Bool(a != b)
      case Lt => Bool(l.value)
      case LtEq => Bool(!g.value)
      case Gt => Bool(g.value)
      case GtEq => Bool(!l.value)
      case _ => Null
  }

  function InOf(v: Value, list: seq<Value>): Value {
    if list == [] then Bool(false) else Disjoin(Compare(Eq, v, list[0]), InOf(v, list[1..]))
  }

  function LikeOf(env: Env, v: Value, p: Value, escape: Option<char>): Result<Value, Error> {
    if !v.Str? || !p.Str? then Ok(Null)
    else if escape.None? then Ok(Bool(env.like(v.s, p.s)))
    else
      var r := env.likeEscaped(v.s, p.s, escape.value);
      if r.None? then Err(LikeFailed) else Ok(Bool(r.value))
  }

  function OrError(o: Option<Value>, e: Error): Result<Value, Error> {
    if o.None? then Err(e) else Ok(o.value)
  }

  /** Whether AND or OR is decided by its left side. */
  predicate Decided(op: Binary, left: Value) {
    (op == And && left == Bool(false)) || (op == Or && left == Bool(true))
  }

  function BinaryOf(env: Env, op: Binary, a: Value, b: Value): Result<Value, Error> {
    match op
    case And => Ok(Conjoin(a, b))
    case Or => Ok(Disjoin(a, b))
    case Arithmetic(name) => OrError(env.call(name, [a, b]), CallFailed)
    case _ => Ok(Compare(op, a, b))
  }

  function Eval(env: Env, e: Expr, row: Row, outer: Row): Result<Value, Error>
    decreases e, 0
  {
    match e
    case Col(n) => Ok(Column(row, n))
    case OuterCol(n) => Ok(Column(outer, n))
    case Lit(v) => Ok(v)
    case Un(op, x) =>
      var v := Eval(env, x, row, outer);
      if v.Err? then v else Ok(UnaryOf(op, v.value))
    case Bin(op, l, r) =>
      var a := Eval(env, l, row, outer);
      if a.Err? || (env.lazy && Decided(op, a.value)) then a
      else
        var b := Eval(env, r, row, outer);
        if b.Err? then b else BinaryOf(env, op, a.value, b.value)
    case TryCast(x, ty) =>
      var v := Eval(env, x, row, outer);
      if v.Err? then v else
      var c := env.cast(v.value, ty);
      Ok(if c.None? then Null else c.value)
    case Cast(x, ty) =>
      var v := Eval(env, x, row, outer);
      if v.Err? then v else OrError(env.cast(v.value, ty), CastFailed)
    case Between(x, lo, hi, negated) =>
      var v, a, b := Eval(env, x, row, outer), Eval(env, lo, row, outer), Eval(env, hi, row, outer);
      if v.Err? then v else if a.Err? then a else if b.Err? then b
      else Ok(Negated(Conjoin(Compare(GtEq, v.value, a.value), Compare(LtEq, v.value, b.value)), negated))
    case InList(x, list, negated) =>
      var v := Eval(env, x, row, outer);
      if v.Err? then v else
      var vs := EvalAll(env, list, row, outer);
      if vs.Err? then Err(vs.error) else Ok(Negated(InOf(v.value, vs.value), negated))
    case Like(x, p, negated, escape) =>
      var v, q := Eval(env, x, row, outer), Eval(env, p, row, outer);
      if v.Err? then v else if q.Err? then q else
      var m := LikeOf(env, v.value, q.value, escape);
      if m.Err? then m else Ok(Negated(m.value, negated))
    case Call(f, args) =>
      var vs := EvalAll(env, args, row, outer);
      if vs.Err? then Err(vs.error) else OrError(env.call(f, vs.value), CallFailed)
    case Exists(p, negated) =>
      var rows := Run(env, p, row);
      if rows.Err? then Err(rows.error) else Ok(Bool((rows.value != []) != negated))
  }

  function EvalAll(env: Env, es: seq<Expr>, row: Row, outer: Row): Result<seq<Value>, Error>
    decreases es, 0
  {
    if es == [] then Ok([])
    else
      var v := Eval(env, es[0], row, outer);
      if v.Err? then Err(v.error)
      else
        var vs := EvalAll(env, es[1..], row, outer);
        if vs.Err? then vs else Ok([v.value] + vs.value)
  }

  /** The rows a predicate is true of; an error on any row is an error. */
  function Keep(env: Env, p: Expr, rows: seq<Row>, outer: Row): Result<seq<Row>, Error>
    decreases p, |rows| + 1
  {
    if rows == [] then Ok([])
    else
      var v := Eval(env, p, rows[0], outer);
      if v.Err? then Err(v.error)
      else
        var rest := Keep(env, p, rows[1..], outer);
        if rest.Err? then rest else Ok((if v.value == Bool(true) then [rows[0]] else []) + rest.value)
  }

  function RowOf(names: seq<string>, vs: seq<Value>): Row {
    if names == [] || vs == [] then map[] else RowOf(names[1..], vs[1..])[names[0] := vs[0]]
  }

  function Projected(env: Env, names: seq<string>, es: seq<Expr>, rows: seq<Row>, outer: Row): Result<seq<Row>, Error>
    decreases es, |rows| + 1
  {
    if rows == [] then Ok([])
    else
      var vs := EvalAll(env, es, rows[0], outer);
      if vs.Err? then Err(vs.error)
      else
        var rest := Projected(env, names, es, rows[1..], outer);
        if rest.Err? then rest else Ok([RowOf(names, vs.value)] + rest.value)
  }

  /** The rows of a plan, under the row of the query around it. */
  function Run(env: Env, p: Plan, outer: Row): Result<seq<Row>, Error>
    decreases p, 0
  {
    match p
    case Scan(contract, table) => Ok(env.scan(contract, table))
    case Filter(e, input) =>
      var rows := Run(env, input, outer);
      if rows.Err? then rows else Keep(env, e, rows.value, outer)
    case Gate(_, _, input) => Run(env, input, outer)
    case Project(names, es, input) =>
      var rows := Run(env, input, outer);
      if rows.Err? then rows else Projected(env, names, es, rows.value, outer)
    case Node(op, inputs) =>
      var all := RunAll(env, inputs, outer);
      if all.Err? then Err(all.error)
      else
        var rows := env.node(op, all.value);
        if rows.None? then Err(NodeFailed) else Ok(rows.value)
  }

  function RunAll(env: Env, ps: seq<Plan>, outer: Row): Result<seq<seq<Row>>, Error>
    decreases ps, 0
  {
    if ps == [] then Ok([])
    else
      var rows := Run(env, ps[0], outer);
      if rows.Err? then Err(rows.error)
      else
        var rest := RunAll(env, ps[1..], outer);
        if rest.Err? then rest else Ok([rows.value] + rest.value)
  }

  // ── what the operators mean ─────────────────────────────────────────────────

  /** Comparisons: those of whole numbers and of reals are theirs, text is ordered as `Before` has it,
      and false comes before true. */
  lemma ComparisonsAre(x: int, y: int, p: real, q: real, s: string, t: string)
    ensures Compare(Lt, Int(x), Int(y)) == Bool(x < y) && Compare(Eq, Int(x), Int(y)) == Bool(x == y)
    ensures Compare(Lt, Real(p), Real(q)) == Bool(p < q) && Compare(Eq, Real(p), Real(q)) == Bool(p == q)
    ensures Compare(Lt, Str(s), Str(t)) == Bool(Before(s, t)) && Compare(Eq, Str(s), Str(t)) == Bool(s == t)
    ensures Compare(Lt, Bool(false), Bool(true)) == Bool(true) && Compare(Lt, Bool(true), Bool(false)) == Bool(false)
    ensures Compare(Lt, Bool(true), Bool(true)) == Compare(Lt, Bool(false), Bool(false)) == Bool(false)
  {
  }

  /** The others follow from those two. With null a comparison is null, but for the two that ask for it. */
  lemma ComparedOtherwise(a: Value, b: Value)
    ensures Compare(Gt, a, b) == Compare(Lt, b, a) && Compare(GtEq, a, b) == Negate(Compare(Lt, a, b))
    ensures Compare(LtEq, a, b) == Negate(Compare(Gt, a, b)) && Compare(NotEq, a, b) == Negate(Compare(Eq, a, b))
    ensures Compare(Eq, Null, b) == Compare(Lt, Null, b) == Compare(Eq, a, Null) == Compare(Lt, a, Null) == Null
    ensures Compare(IsNotDistinctFrom, a, b) == Bool(a == b)
    ensures Compare(IsDistinctFrom, a, b) == Negate(Compare(IsNotDistinctFrom, a, b))
  {
    assert Less(a, b).None? <==> Less(b, a).None?;
  }

  /** Tests of one value: each is true of just the values it names, and its opposite of the others. */
  lemma TestsAre(v: Value, b: bool)
    ensures UnaryOf(IsNull, v) == Bool(true) <==> v == Null
    ensures UnaryOf(IsTrue, v) == Bool(true) <==> v == Bool(true)
    ensures UnaryOf(IsFalse, v) == Bool(true) <==> v == Bool(false)
    ensures UnaryOf(IsUnknown, v) == Bool(true) <==> v != Bool(true) && v != Bool(false)
    ensures UnaryOf(IsNotNull, v) == Negate(UnaryOf(IsNull, v))
    ensures UnaryOf(IsNotTrue, v) == Negate(UnaryOf(IsTrue, v)) && UnaryOf(IsNotFalse, v) == Negate(UnaryOf(IsFalse, v))
    ensures UnaryOf(IsNotUnknown, v) == Negate(UnaryOf(IsUnknown, v))
    ensures UnaryOf(IsNull, v).Bool? && UnaryOf(IsTrue, v).Bool? && UnaryOf(IsFalse, v).Bool?
            && UnaryOf(IsUnknown, v).Bool?
    ensures UnaryOf(Not, Bool(b)) == Bool(!b) && UnaryOf(Not, Null) == Null
  {
  }

  /** AND and OR are decided by their left side just when the right side cannot matter. */
  lemma Deciding(env: Env, op: Binary, a: Value)
    requires op in {And, Or}
    ensures Decided(op, a) <==> forall b :: BinaryOf(env, op, a, b) == Ok(a)
  {
    if forall b :: BinaryOf(env, op, a, b) == Ok(a) {
      assert BinaryOf(env, op, a, Bool(true)) == Ok(a) && BinaryOf(env, op, a, Bool(false)) == Ok(a);
    }
  }

  /** BETWEEN is its two comparisons together; IN is equality with one of the list; with NOT each is the
      negation. */
  lemma RangesAre(env: Env, x: Expr, lo: Expr, hi: Expr, row: Row, outer: Row)
    requires Eval(env, x, row, outer).Ok? && Eval(env, lo, row, outer).Ok? && Eval(env, hi, row, outer).Ok?
    ensures Eval(env, Between(x, lo, hi, false), row, outer) ==
            Eval(env, Bin(And, Bin(GtEq, x, lo), Bin(LtEq, x, hi)), row, outer)
    ensures Eval(env, Between(x, lo, hi, true), row, outer) ==
            Eval(env, Un(Not, Between(x, lo, hi, false)), row, outer)
  {
  }

  lemma {:induction false} InIs(v: Value, list: seq<Value>)
    ensures InOf(v, list) in {Bool(true), Bool(false), Null}
    ensures InOf(v, list) == Bool(true) <==> exists i :: 0 <= i < |list| && Compare(Eq, v, list[i]) == Bool(true)
    ensures InOf(v, list) == Bool(false) <==> forall i :: 0 <= i < |list| ==> Compare(Eq, v, list[i]) == Bool(false)
  {
    if list != [] {
      InIs(v, list[1..]);
      assert forall i :: 0 < i < |list| ==> list[i] == list[1..][i - 1];
    }
  }

  lemma ListsAre(env: Env, x: Expr, list: seq<Expr>, row: Row, outer: Row)
    requires Eval(env, x, row, outer).Ok? && EvalAll(env, list, row, outer).Ok?
    ensures Eval(env, InList(x, list, false), row, outer) ==
            Ok(InOf(Eval(env, x, row, outer).value, EvalAll(env, list, row, outer).value))
    ensures Eval(env, InList(x, list, true), row, outer) == Eval(env, Un(Not, InList(x, list, false)), row, outer)
  {
  }

  lemma LikesAre(env: Env, x: Expr, p: Expr, escape: Option<char>, row: Row, outer: Row)
    requires Eval(env, x, row, outer).Ok? && Eval(env, p, row, outer).Ok?
    ensures Eval(env, Like(x, p, false, escape), row, outer) ==
            LikeOf(env, Eval(env, x, row, outer).value, Eval(env, p, row, outer).value, escape)
  {
  }

  lemma NotLikesAre(env: Env, x: Expr, p: Expr, escape: Option<char>, row: Row, outer: Row)
    requires Eval(env, x, row, outer).Ok? && Eval(env, p, row, outer).Ok?
    ensures Eval(env, Like(x, p, true, escape), row, outer) ==
            Eval(env, Un(Not, Like(x, p, false, escape)), row, outer)
  {
    LikesAre(env, x, p, escape, row, outer);
  }

  /** EXISTS is true just when the subquery gives a row, and NOT EXISTS when it gives none. */
  lemma ExistsIs(env: Env, p: Plan, row: Row, outer: Row)
    requires Run(env, p, row).Ok?
    ensures Eval(env, Exists(p, false), row, outer) == Ok(Bool(|Run(env, p, row).value| > 0))
    ensures Eval(env, Exists(p, true), row, outer) == Eval(env, Un(Not, Exists(p, false)), row, outer)
  {
  }

  // ── predicates that cannot fail ─────────────────────────────────────────────

  /** The expressions under `e`; a subquery's plan is not walked. */
  function Children(e: Expr): (cs: seq<Expr>)
    ensures forall c :: c in cs ==> c < e
  {
    match e
    case Col(_) => []
    case OuterCol(_) => []
    case Lit(_) => []
    case Un(_, x) => [x]
    case Bin(_, l, r) => [l, r]
    case TryCast(x, _) => [x]
    case Cast(x, _) => [x]
    case Between(x, lo, hi, _) => [x, lo, hi]
    case InList(x, list, _) => [x] + list
    case Like(x, p, _, _) => [x, p]
    case Call(_, args) => args
    case Exists(_, _) => []
  }

  predicate NodeOk(e: Expr) {
    match e
    case Col(_) => true
    case Lit(_) => true
    case Un(_, _) => true
    case TryCast(_, _) => true
    case Between(_, _, _, _) => true
    case Bin(op, _, _) => !op.Arithmetic?
    case InList(_, list, _) => forall l :: l in list ==> l.Lit?
    case Like(_, _, _, escape) => escape.None?
    case Cast(x, _) => x.Lit?
    case _ => false
  }

  predicate CannotFail(e: Expr) {
    NodeOk(e) && forall c :: c in Children(e) ==> CannotFail(c)
  }

  /** The predicates let through, by their form: columns and constants, boolean connectives and tests,
      comparisons, casts that give null, BETWEEN, IN a list of constants, LIKE without an escape and
      casts of a constant, nested in any way; no arithmetic, no function, no other cast, no column of
      a query around, no subquery. */
  ghost predicate Harmless(e: Expr) {
    match e
    case Col(_) => true
    case OuterCol(_) => false
    case Lit(_) => true
    case Un(_, x) => Harmless(x)
    case Bin(op, l, r) =>
      op in {Eq, NotEq, Lt, LtEq, Gt, GtEq, And, Or, IsDistinctFrom, IsNotDistinctFrom} && Harmless(l) && Harmless(r)
    case TryCast(x, _) => Harmless(x)
    case Cast(x, _) => x.Lit?
    case Between(x, lo, hi, _) => Harmless(x) && Harmless(lo) && Harmless(hi)
    case InList(x, list, _) => Harmless(x) && forall l :: l in list ==> l.Lit?
    case Like(x, p, _, escape) => Harmless(x) && Harmless(p) && escape == None
    case Call(_, _) => false
    case Exists(_, _) => false
  }

  /** Just those are let through. */
  lemma {:induction false} LetThrough(e: Expr)
    ensures CannotFail(e) <==> Harmless(e)
    decreases e
  {
    forall c | c in Children(e)
      ensures CannotFail(c) <==> Harmless(c)
    {
      LetThrough(c);
    }
    match e
    case InList(x, list, _) => assert Children(e) == [x] + list && x in Children(e);
    case Bin(_, l, r) => assert l in Children(e) && r in Children(e);
    case Between(x, lo, hi, _) => assert x in Children(e) && lo in Children(e) && hi in Children(e);
    case Like(x, p, _, _) => assert x in Children(e) && p in Children(e);
    case Un(_, x) => assert x in Children(e);
    case TryCast(x, _) => assert x in Children(e);
    case Cast(x, _) => assert x in Children(e);
    case _ =>
  }

  ghost function Size(e: Expr): (n: nat)
    ensures n > 0
    decreases e, 1
  {
    1 + Sizes(e, Children(e))
  }

  ghost function Sizes(e: Expr, es: seq<Expr>): nat
    requires forall c :: c in es ==> c < e
    decreases e, 0, |es|
  {
    if es == [] then 0
    else
      assert es[0] in es && forall c :: c in es[1..] ==> c in es;
      Size(es[0]) + Sizes(e, es[1..])
  }

  ghost function Pending(es: seq<Expr>): nat {
    if es == [] then 0 else Size(es[0]) + Pending(es[1..])
  }

  lemma {:induction false} PendingConcat(a: seq<Expr>, b: seq<Expr>)
    ensures Pending(a + b) == Pending(a) + Pending(b)
  {
    if a == [] {
      assert a + b == b;
    } else {
      assert (a + b)[1..] == a[1..] + b;
      PendingConcat(a[1..], b);
    }
  }

  lemma {:induction false} SizesPending(e: Expr, es: seq<Expr>)
    requires forall c :: c in es ==> c < e
    ensures Sizes(e, es) == Pending(es)
  {
    if es != [] {
      assert forall c :: c in es[1..] ==> c in es;
      SizesPending(e, es[1..]);
    }
  }

  /** Walks the expression, and stops at the first node that may fail. */
  method WalkCannotFail(e: Expr) returns (ok: bool)
    ensures ok == CannotFail(e)
  {
    var left := [e];
    ok := true;
    while left != [] && ok
      invariant CannotFail(e) == (ok && forall x :: x in left ==> CannotFail(x))
      decreases Pending(left)
    {
      var x, rest := left[0], left[1..];
      SizesPending(x, Children(x));
      PendingConcat(Children(x), rest);
      assert forall y :: y in left <==> y == x || y in rest;
      assert CannotFail(x) <==> NodeOk(x) && forall c :: c in Children(x) ==> CannotFail(c);
      ok := ok && NodeOk(x);
      left := Children(x) + rest;
      assert forall y :: y in left <==> y in Children(x) || y in rest;
    }
  }

  /** Every cast of a constant in `e` has a value, as it must to be folded before execution. */
  ghost predicate CastsFold(env: Env, e: Expr) {
    && (e.Cast? && e.arg.Lit? ==> env.cast(e.arg.value, e.to).Some?)
    && forall c :: c in Children(e) ==> CastsFold(env, c)
  }

  lemma {:induction false} LiteralsEval(env: Env, es: seq<Expr>, row: Row, outer: Row)
    requires forall e :: e in es ==> e.Lit?
    ensures EvalAll(env, es, row, outer).Ok?
  {
    if es != [] {
      assert es[0] in es;
      LiteralsEval(env, es[1..], row, outer);
    }
  }

  lemma LiteralsFold(env: Env, es: seq<Expr>)
    requires forall e :: e in es ==> e.Lit?
    ensures forall e :: e in es ==> CastsFold(env, e)
  {
  }

  /** A predicate let through never fails, on any row, when every constant cast in it folds. */
  lemma {:induction false} NeverFails(env: Env, e: Expr, row: Row, outer: Row)
    requires CannotFail(e) && CastsFold(env, e)
    ensures Eval(env, e, row, outer).Ok?
    decreases e
  {
    forall c | c in Children(e)
      ensures Eval(env, c, row, outer).Ok?
    {
      NeverFails(env, c, row, outer);
    }
    match e
    case InList(x, list, _) =>
      assert x in Children(e);
      LiteralsEval(env, list, row, outer);
    case Bin(_, l, r) => assert l in Children(e) && r in Children(e);
    case Between(x, lo, hi, _) => assert x in Children(e) && lo in Children(e) && hi in Children(e);
    case Like(x, p, _, _) => assert x in Children(e) && p in Children(e);
    case Un(_, x) => assert x in Children(e);
    case TryCast(x, _) => assert x in Children(e);
    case Cast(x, _) =>
    case _ =>
  }

  /** Where AND and OR evaluate both sides, a predicate let through fails exactly when a constant
      cast in it has no value, and then on every row. */
  lemma {:induction false} FailsWhenCastFails(env: Env, e: Expr, row: Row, outer: Row)
    requires CannotFail(e) && !env.lazy
    ensures Eval(env, e, row, outer).Ok? <==> CastsFold(env, e)
    decreases e
  {
    forall c | c in Children(e)
      ensures Eval(env, c, row, outer).Ok? <==> CastsFold(env, c)
    {
      FailsWhenCastFails(env, c, row, outer);
    }
    match e
    case InList(x, list, _) =>
      assert x in Children(e);
      LiteralsEval(env, list, row, outer);
      LiteralsFold(env, list);
    case Bin(_, l, r) => assert l in Children(e) && r in Children(e);
    case Between(x, lo, hi, _) => assert x in Children(e) && lo in Children(e) && hi in Children(e);
    case Like(x, p, _, _) => assert x in Children(e) && p in Children(e);
    case Un(_, x) => assert x in Children(e);
    case TryCast(x, _) => assert x in Children(e);
    case Cast(x, _) => assert x in Children(e);
    case _ =>
  }

  // ── the rewrite ─────────────────────────────────────────────────────────────

  /** The conjuncts of a predicate, in order. */
  function Split(e: Expr): (parts: seq<Expr>)
    ensures parts != [] && forall part :: part in parts ==> part == e || part < e
  {
    if e.Bin? && e.op == And then Split(e.left) + Split(e.right) else [e]
  }

  /** Conjuncts joined again, left to right. */
  function Conjunction(parts: seq<Expr>): Expr
    requires parts != []
  {
    if |parts| == 1 then parts[0]
    else Bin(And, Conjunction(parts[..|parts| - 1]), parts[|parts| - 1])
  }

  function Select(parts: seq<Expr>, safe: bool): seq<Expr> {
    if parts == [] then []
    else (if CannotFail(parts[0]) == safe then [parts[0]] else []) + Select(parts[1..], safe)
  }

  /** One node of the rewrite: a filter over a gate leaves above it what may fail, and puts the rest
      below. */
  function Barrier(p: Plan): Plan {
    if !p.Filter? || !p.input.Gate? then p
    else
      var (gate, parts) := (p.input, Split(p.test));
      var (safe, rest) := (Select(parts, true), Select(parts, false));
      if safe == [] then p
      else
        var gated := Gate(gate.gated, gate.compilationHash, Filter(Conjunction(safe), gate.input));
        if rest == [] then gated else Filter(Conjunction(rest), gated)
  }

  /** Bottom up, subqueries included. */
  function Rewrite(p: Plan): Plan {
    match p
    case Scan(_, _) => p
    case Filter(e, input) => Barrier(Filter(RewriteExpr(e), Rewrite(input)))
    case Gate(c, h, input) => Gate(c, h, Rewrite(input))
    case Project(names, es, input) => Project(names, RewriteExprs(es), Rewrite(input))
    case Node(op, inputs) => Node(op, RewriteAll(inputs))
  }

  function RewriteAll(ps: seq<Plan>): seq<Plan> {
    if ps == [] then [] else [Rewrite(ps[0])] + RewriteAll(ps[1..])
  }

  function RewriteExpr(e: Expr): Expr {
    match e
    case Col(_) => e
    case OuterCol(_) => e
    case Lit(_) => e
    case Un(op, x) => Un(op, RewriteExpr(x))
    case Bin(op, l, r) => Bin(op, RewriteExpr(l), RewriteExpr(r))
    case TryCast(x, ty) => TryCast(RewriteExpr(x), ty)
    case Cast(x, ty) => Cast(RewriteExpr(x), ty)
    case Between(x, lo, hi, n) => Between(RewriteExpr(x), RewriteExpr(lo), RewriteExpr(hi), n)
    case InList(x, list, n) => InList(RewriteExpr(x), RewriteExprs(list), n)
    case Like(x, p, n, esc) => Like(RewriteExpr(x), RewriteExpr(p), n, esc)
    case Call(f, args) => Call(f, RewriteExprs(args))
    case Exists(p, n) => Exists(Rewrite(p), n)
  }

  function RewriteExprs(es: seq<Expr>): seq<Expr> {
    if es == [] then [] else [RewriteExpr(es[0])] + RewriteExprs(es[1..])
  }

  // ── a conjunction, part by part ─────────────────────────────────────────────

  /** What a filter sees of a predicate on a row. */
  datatype Truth = Fails | Yes | No | Unknown

  function TruthOf(r: Result<Value, Error>): Truth {
    if r.Err? then Fails
    else if r.value == Bool(true) then Yes
    else if r.value == Bool(false) then No
    else Unknown
  }

  /** AND of two, the right one after the left. */
  function Then(lazy: bool, a: Truth, b: Truth): Truth {
    if a == Fails || (lazy && a == No) then a
    else if b == Fails then Fails
    else if a == No || b == No then No
    else if a == Yes && b == Yes then Yes
    else Unknown
  }

  function AllOf(env: Env, parts: seq<Expr>, row: Row, outer: Row): Truth {
    if parts == [] then Yes
    else Then(env.lazy, TruthOf(Eval(env, parts[0], row, outer)), AllOf(env, parts[1..], row, outer))
  }

  lemma {:induction false} AllOfConcat(env: Env, a: seq<Expr>, b: seq<Expr>, row: Row, outer: Row)
    ensures AllOf(env, a + b, row, outer) == Then(env.lazy, AllOf(env, a, row, outer), AllOf(env, b, row, outer))
  {
    if a == [] {
      assert a + b == b;
    } else {
      assert (a + b)[1..] == a[1..] + b;
      AllOfConcat(env, a[1..], b, row, outer);
    }
  }

  lemma AllOfOne(env: Env, e: Expr, row: Row, outer: Row)
    ensures AllOf(env, [e], row, outer) == TruthOf(Eval(env, e, row, outer))
  {
    assert [e][1..] == [];
  }

  lemma AndTruth(env: Env, l: Expr, r: Expr, row: Row, outer: Row)
    ensures TruthOf(Eval(env, Bin(And, l, r), row, outer)) ==
            Then(env.lazy, TruthOf(Eval(env, l, row, outer)), TruthOf(Eval(env, r, row, outer)))
  {
    var (a, b) := (Eval(env, l, row, outer), Eval(env, r, row, outer));
    assert Eval(env, Bin(And, l, r), row, outer) ==
           if a.Err? || (env.lazy && Decided(And, a.value)) then a
           else if b.Err? then b else Ok(Conjoin(a.value, b.value));
    AndTruths(env.lazy, a, b);
  }

  lemma AndTruths(lazy: bool, a: Result<Value, Error>, b: Result<Value, Error>)
    ensures TruthOf(if a.Err? || (lazy && Decided(And, a.value)) then a
                    else if b.Err? then b else Ok(Conjoin(a.value, b.value))) ==
            Then(lazy, TruthOf(a), TruthOf(b))
  {
  }

  /** Splitting a predicate into its conjuncts keeps what a filter sees of it. */
  lemma {:induction false} SplitTruth(env: Env, e: Expr, row: Row, outer: Row)
    ensures AllOf(env, Split(e), row, outer) == TruthOf(Eval(env, e, row, outer))
  {
    if e.Bin? && e.op == And {
      SplitTruth(env, e.left, row, outer);
      SplitTruth(env, e.right, row, outer);
      AllOfConcat(env, Split(e.left), Split(e.right), row, outer);
      AndTruth(env, e.left, e.right, row, outer);
    } else {
      AllOfOne(env, e, row, outer);
    }
  }

  /** And so does joining them. */
  lemma {:induction false} ConjunctionTruth(env: Env, parts: seq<Expr>, row: Row, outer: Row)
    requires parts != []
    ensures TruthOf(Eval(env, Conjunction(parts), row, outer)) == AllOf(env, parts, row, outer)
  {
    var n := |parts| - 1;
    AllOfOne(env, parts[n], row, outer);
    assert parts == parts[..n] + [parts[n]];
    if n > 0 {
      ConjunctionTruth(env, parts[..n], row, outer);
      AllOfConcat(env, parts[..n], [parts[n]], row, outer);
      AndTruth(env, Conjunction(parts[..n]), parts[n], row, outer);
    }
  }

  /** One part more, on the truths alone. */
  lemma ThenFirst(lazy: bool, t: Truth, first: bool, safe: Truth, rest: Truth, all: Truth)
    requires Then(lazy, t, all) != Fails && (if first then Then(lazy, t, safe) else safe) != Fails
    requires all != Fails && safe != Fails ==> (safe == Yes ==> rest == all) && (safe != Yes ==> all != Yes)
    ensures var safe' := if first then Then(lazy, t, safe) else safe;
            var rest' := if first then rest else Then(lazy, t, rest);
            && (safe' == Yes ==> rest' == Then(lazy, t, all))
            && (safe' != Yes ==> Then(lazy, t, all) != Yes)
  {
  }

  lemma SelectTruth(env: Env, parts: seq<Expr>, safe: bool, row: Row, outer: Row)
    requires parts != []
    ensures var rest := AllOf(env, Select(parts[1..], safe), row, outer);
            AllOf(env, Select(parts, safe), row, outer) ==
            if CannotFail(parts[0]) == safe
            then Then(env.lazy, TruthOf(Eval(env, parts[0], row, outer)), rest) else rest
  {
    var rest := Select(parts[1..], safe);
    assert Select(parts, safe) == if CannotFail(parts[0]) == safe then [parts[0]] + rest else rest;
    if CannotFail(parts[0]) == safe {
      AllOfOne(env, parts[0], row, outer);
      AllOfConcat(env, [parts[0]], Select(parts[1..], safe), row, outer);
    }
  }

  /** Taking the parts that are let through first changes nothing a filter sees of a predicate, as
      long as neither fails: the others are reached only where those hold, and decide as before. */
  lemma {:induction false} SafeFirst(env: Env, parts: seq<Expr>, row: Row, outer: Row)
    requires AllOf(env, parts, row, outer) != Fails && AllOf(env, Select(parts, true), row, outer) != Fails
    ensures var safe := AllOf(env, Select(parts, true), row, outer);
            && (safe == Yes ==> AllOf(env, Select(parts, false), row, outer) == AllOf(env, parts, row, outer))
            && (safe != Yes ==> AllOf(env, parts, row, outer) != Yes)
  {
    if parts != [] {
      var t := TruthOf(Eval(env, parts[0], row, outer));
      var safe := AllOf(env, Select(parts[1..], true), row, outer);
      SelectTruth(env, parts, true, row, outer);
      SelectTruth(env, parts, false, row, outer);
      if AllOf(env, parts[1..], row, outer) != Fails && safe != Fails {
        SafeFirst(env, parts[1..], row, outer);
      }
      var rest := AllOf(env, Select(parts[1..], false), row, outer);
      ThenFirst(env.lazy, t, CannotFail(parts[0]), safe, rest, AllOf(env, parts[1..], row, outer));
    }
  }

  lemma {:induction false} NoneFails(env: Env, parts: seq<Expr>, row: Row, outer: Row)
    requires forall e :: e in parts ==> Eval(env, e, row, outer).Ok?
    ensures AllOf(env, parts, row, outer) != Fails
  {
    if parts != [] {
      assert parts[0] in parts;
      NoneFails(env, parts[1..], row, outer);
    }
  }

  lemma {:induction false} SelectIn(parts: seq<Expr>, safe: bool)
    ensures forall e :: e in Select(parts, safe) <==> e in parts && CannotFail(e) == safe
  {
    if parts != [] {
      SelectIn(parts[1..], safe);
    }
  }

  // ── one gate ────────────────────────────────────────────────────────────────

  lemma KeepStep(env: Env, e: Expr, rows: seq<Row>, outer: Row)
    requires rows != []
    ensures var (t, rest) := (TruthOf(Eval(env, e, rows[0], outer)), Keep(env, e, rows[1..], outer));
            && (Keep(env, e, rows, outer).Ok? <==> t != Fails && rest.Ok?)
            && (t != Fails && rest.Ok? ==>
                  Keep(env, e, rows, outer) == Ok(if t == Yes then [rows[0]] + rest.value else rest.value))
  {
    var rest := Keep(env, e, rows[1..], outer);
    if rest.Ok? {
      assert [] + rest.value == rest.value;
    }
  }

  /** What two filters see of a row, one over the other. */
  function Seen(env: Env, below: Expr, above: Option<Expr>, row: Row, outer: Row): Truth {
    var b := TruthOf(Eval(env, below, row, outer));
    if b != Yes || above.None? then b else TruthOf(Eval(env, above.value, row, outer))
  }

  function KeepBoth(env: Env, below: Expr, above: Option<Expr>, rows: seq<Row>, outer: Row): Result<seq<Row>, Error> {
    var kept := Keep(env, below, rows, outer);
    if kept.Err? || above.None? then kept else Keep(env, above.value, kept.value, outer)
  }

  lemma KeepBothStep(env: Env, below: Expr, above: Option<Expr>, rows: seq<Row>, outer: Row)
    requires rows != []
    ensures var (t, rest) := (Seen(env, below, above, rows[0], outer), KeepBoth(env, below, above, rows[1..], outer));
            var both := KeepBoth(env, below, above, rows, outer);
            if t == Fails || rest.Err? then both.Err?
            else both == Ok(if t == Yes then [rows[0]] + rest.value else rest.value)
  {
    KeepStep(env, below, rows, outer);
    var (kept, rest) := (Keep(env, below, rows, outer), Keep(env, below, rows[1..], outer));
    if kept.Ok? && above.Some? && TruthOf(Eval(env, below, rows[0], outer)) == Yes {
      assert kept.value == [rows[0]] + rest.value && kept.value[1..] == rest.value;
      KeepStep(env, above.value, kept.value, outer);
    }
  }

  /** The two filters let through what `e` does, unless one fails: then so do both together. */
  lemma {:induction false} KeepTwice(env: Env, e: Expr, below: Expr, above: Option<Expr>, rows: seq<Row>, outer: Row)
    requires Keep(env, e, rows, outer).Ok?
    requires forall row :: row in rows && Seen(env, below, above, row, outer) != Fails ==>
               (Seen(env, below, above, row, outer) == Yes <==> TruthOf(Eval(env, e, row, outer)) == Yes)
    ensures var both := KeepBoth(env, below, above, rows, outer);
            if forall row :: row in rows ==> Seen(env, below, above, row, outer) != Fails
            then both == Keep(env, e, rows, outer) else both.Err?
  {
    if rows != [] {
      assert rows[0] in rows && forall row :: row in rows <==> row == rows[0] || row in rows[1..];
      KeepStep(env, e, rows, outer);
      KeepBothStep(env, below, above, rows, outer);
      KeepTwice(env, e, below, above, rows[1..], outer);
    }
  }

  lemma {:induction false} KeptEval(env: Env, e: Expr, rows: seq<Row>, outer: Row)
    requires Keep(env, e, rows, outer).Ok?
    ensures forall row :: row in rows ==> Eval(env, e, row, outer).Ok?
  {
    if rows != [] {
      KeptEval(env, e, rows[1..], outer);
    }
  }

  function AboveGate(parts: seq<Expr>): Option<Expr> {
    if parts == [] then None else Some(Conjunction(parts))
  }

  /** A filter over a gate, rewritten, is a filter below the gate and one above it. */
  lemma RunBarrier(env: Env, e: Expr, gate: Plan, outer: Row)
    requires gate.Gate? && Select(Split(e), true) != [] && Run(env, gate, outer).Ok?
    ensures Run(env, Barrier(Filter(e, gate)), outer) ==
            KeepBoth(env, Conjunction(Select(Split(e), true)), AboveGate(Select(Split(e), false)),
                     Run(env, gate, outer).value, outer)
  {
    var (safe, rest) := (Select(Split(e), true), Select(Split(e), false));
    var gated := Gate(gate.gated, gate.compilationHash, Filter(Conjunction(safe), gate.input));
    assert Run(env, gated, outer) == Keep(env, Conjunction(safe), Run(env, gate, outer).value, outer);
    assert Barrier(Filter(e, gate)) == if rest == [] then gated else Filter(Conjunction(rest), gated);
  }

  /** What the conjuncts are seen as when the ones let through come first. */
  lemma SeenParts(env: Env, safe: seq<Expr>, rest: seq<Expr>, row: Row, outer: Row)
    requires safe != []
    ensures Seen(env, Conjunction(safe), AboveGate(rest), row, outer) ==
            var t := AllOf(env, safe, row, outer);
            if t != Yes then t else AllOf(env, rest, row, outer)
  {
    ConjunctionTruth(env, safe, row, outer);
    if rest != [] {
      ConjunctionTruth(env, rest, row, outer);
    }
  }

  /** The conjuncts that go below the gate have a value together on every row that comes through it. */
  ghost predicate MovedEvaluate(env: Env, p: Plan, outer: Row)
    requires p.Filter? && Select(Split(p.test), true) != [] && Run(env, p.input, outer).Ok?
  {
    forall row :: row in Run(env, p.input, outer).value ==>
      Eval(env, Conjunction(Select(Split(p.test), true)), row, outer).Ok?
  }

  /** At one gate all the conjuncts that are let through go below, and all the others stay above, each
      in the order they were in. */
  lemma BarrierMoves(e: Expr, gate: Plan, harmless: Expr -> bool, other: Expr -> bool, same: Expr -> Expr)
    requires gate.Gate? && forall x :: same(x) == x
    requires forall x :: (harmless(x) <==> Harmless(x)) && (other(x) <==> !Harmless(x))
    ensures var (safe, rest) := (Chosen(Split(e), harmless, same), Chosen(Split(e), other, same));
            Barrier(Filter(e, gate)) ==
            if safe == [] then Filter(e, gate)
            else
              var gated := Gate(gate.gated, gate.compilationHash, Filter(Conjunction(safe), gate.input));
              if rest == [] then gated else Filter(Conjunction(rest), gated)
  {
    SelectChosen(Split(e), true, harmless, same);
    SelectChosen(Split(e), false, other, same);
  }

  lemma {:induction false} SelectChosen(parts: seq<Expr>, safe: bool, p: Expr -> bool, same: Expr -> Expr)
    requires forall x :: same(x) == x && (p(x) <==> (Harmless(x) == safe))
    ensures Select(parts, safe) == Chosen(parts, p, same)
  {
    if parts != [] {
      LetThrough(parts[0]);
      SelectChosen(parts[1..], safe, p, same);
      var first := if p(parts[0]) then [same(parts[0])] else [];
      assert Select(parts, safe) == first + Select(parts[1..], safe);
    }
  }

  /** Moving predicates below one gate keeps the rows exactly when those moved have a value on each;
      otherwise the plan gets an error it did not raise. */
  lemma BarrierKeeps(env: Env, p: Plan, outer: Row)
    requires p.Filter? && p.input.Gate? && Select(Split(p.test), true) != [] && Run(env, p, outer).Ok?
    ensures if MovedEvaluate(env, p, outer) then Run(env, Barrier(p), outer) == Run(env, p, outer)
            else Run(env, Barrier(p), outer).Err?
  {
    var (e, rows) := (p.test, Run(env, p.input, outer).value);
    var (safe, rest) := (Select(Split(e), true), Select(Split(e), false));
    RunBarrier(env, e, p.input, outer);
    KeptEval(env, e, rows, outer);
    forall row | row in rows
      ensures var seen := Seen(env, Conjunction(safe), AboveGate(rest), row, outer);
              && (seen != Fails <==> Eval(env, Conjunction(safe), row, outer).Ok?)
              && (seen != Fails ==> (seen == Yes <==> TruthOf(Eval(env, e, row, outer)) == Yes))
    {
      SplitTruth(env, e, row, outer);
      ConjunctionTruth(env, safe, row, outer);
      SeenParts(env, safe, rest, row, outer);
      if AllOf(env, safe, row, outer) != Fails {
        SafeFirst(env, Split(e), row, outer);
      }
    }
    KeepTwice(env, e, Conjunction(safe), AboveGate(rest), rows, outer);
  }

  // ── whole plans ─────────────────────────────────────────────────────────────

  function RowsOf(env: Env, p: Plan, outer: Row): seq<Row> {
    var rows := Run(env, p, outer);
    if rows.Ok? then rows.value else []
  }

  /** Wherever the plan, as it is evaluated, comes to a filter over a gate, the conjuncts that the
      rewrite moves below the gate have a value together on each row there; the other conjuncts
      are come to only where those hold. */
  ghost predicate Crosses(env: Env, p: Plan, outer: Row)
    decreases p, 0
  {
    match p
    case Scan(_, _) => true
    case Gate(_, _, input) => Crosses(env, input, outer)
    case Filter(e, input) =>
      Crosses(env, input, outer)
      && forall row :: row in RowsOf(env, input, outer) ==>
           if Rewrite(input).Gate? && Select(Split(e), true) != [] then CrossesTest(env, e, row, outer)
           else CrossesExpr(env, e, row, outer)
    case Project(_, es, input) =>
      Crosses(env, input, outer)
      && forall row, e :: row in RowsOf(env, input, outer) && e in es ==> CrossesExpr(env, e, row, outer)
    case Node(_, inputs) => forall q :: q in inputs ==> Crosses(env, q, outer)
  }

  ghost predicate CrossesTest(env: Env, e: Expr, row: Row, outer: Row)
    decreases e, 2
  {
    var safe := AllOf(env, Select(Split(e), true), row, outer);
    SelectIn(Split(e), false);
    safe != Fails && (safe == Yes ==> CrossesParts(env, e, Select(Split(e), false), row, outer))
  }

  /** The conjuncts `parts` of `e`, as far as they are evaluated. */
  ghost predicate CrossesParts(env: Env, e: Expr, parts: seq<Expr>, row: Row, outer: Row)
    requires forall part :: part in parts ==> part == e || part < e
    decreases e, 1, |parts|
  {
    parts != [] ==>
      assert parts[0] in parts && forall part :: part in parts[1..] ==> part in parts;
      && CrossesExpr(env, parts[0], row, outer)
      && ((env.lazy && TruthOf(Eval(env, parts[0], row, outer)) == No)
          || CrossesParts(env, e, parts[1..], row, outer))
  }

  ghost predicate CrossesExpr(env: Env, e: Expr, row: Row, outer: Row)
    decreases e, 0
  {
    match e
    case Exists(q, _) => Crosses(env, q, row)
    case Bin(op, l, r) =>
      && CrossesExpr(env, l, row, outer)
      && ((env.lazy && Eval(env, l, row, outer).Ok? && Decided(op, Eval(env, l, row, outer).value))
          || CrossesExpr(env, r, row, outer))
    case _ => forall c :: c in Children(e) ==> CrossesExpr(env, c, row, outer)
  }

  lemma {:induction false} RewriteExprsAt(es: seq<Expr>)
    ensures |RewriteExprs(es)| == |es| && forall i :: 0 <= i < |es| ==> RewriteExprs(es)[i] == RewriteExpr(es[i])
  {
    if es != [] {
      RewriteExprsAt(es[1..]);
    }
  }

  lemma RewrittenChildren(e: Expr)
    ensures Children(RewriteExpr(e)) == RewriteExprs(Children(e))
    ensures RewriteExpr(e).Cast? && RewriteExpr(e).arg.Lit? ==> RewriteExpr(e) == e
  {
    match e
    case InList(x, list, _) => assert ([x] + list)[1..] == list;
    case _ => RewriteExprsAt(Children(e));
  }

  lemma RewriteInList(x: Expr, list: seq<Expr>, negated: bool)
    requires RewriteExpr(InList(x, list, negated)).list == RewriteExprs(list)
    requires forall l :: l in RewriteExprs(list) ==> l.Lit?
    ensures RewriteExprs(list) == list
  {
    RewriteExprsAt(list);
    forall i | 0 <= i < |list|
      ensures RewriteExprs(list)[i] == list[i]
    {
      assert RewriteExprs(list)[i] in RewriteExprs(list);
    }
  }

  /** The rewrite changes nothing in an expression that comes out as one that cannot fail. */
  lemma {:induction false} SafeUnchanged(e: Expr)
    requires CannotFail(RewriteExpr(e))
    ensures RewriteExpr(e) == e
    decreases e
  {
    RewrittenChildren(e);
    RewriteExprsAt(Children(e));
    forall i | 0 <= i < |Children(e)|
      ensures RewriteExpr(Children(e)[i]) == Children(e)[i]
    {
      assert Children(e)[i] in Children(e) && RewriteExprs(Children(e))[i] in Children(RewriteExpr(e));
      SafeUnchanged(Children(e)[i]);
    }
    match e
    case InList(x, list, n) =>
      RewriteInList(x, list, n);
      assert x == Children(e)[0];
    case Un(_, x) => assert x == Children(e)[0];
    case TryCast(x, _) => assert x == Children(e)[0];
    case Cast(x, _) => assert x == Children(e)[0];
    case Bin(_, l, r) => assert l == Children(e)[0] && r == Children(e)[1];
    case Between(x, lo, hi, _) => assert x == Children(e)[0] && lo == Children(e)[1] && hi == Children(e)[2];
    case Like(x, p, _, _) => assert x == Children(e)[0] && p == Children(e)[1];
    case _ =>
  }

  lemma {:induction false} SafeAsIs(e: Expr)
    requires CannotFail(e)
    ensures RewriteExpr(e) == e
    decreases e
  {
    forall i | 0 <= i < |Children(e)|
      ensures RewriteExpr(Children(e)[i]) == Children(e)[i]
    {
      assert Children(e)[i] in Children(e);
      SafeAsIs(Children(e)[i]);
    }
    match e
    case InList(x, list, _) =>
      assert x == Children(e)[0];
      LiteralsAsIs(list);
    case Un(_, x) => assert x == Children(e)[0];
    case TryCast(x, _) => assert x == Children(e)[0];
    case Cast(x, _) => assert x == Children(e)[0];
    case Bin(_, l, r) => assert l == Children(e)[0] && r == Children(e)[1];
    case Between(x, lo, hi, _) => assert x == Children(e)[0] && lo == Children(e)[1] && hi == Children(e)[2];
    case Like(x, p, _, _) => assert x == Children(e)[0] && p == Children(e)[1];
    case _ =>
  }

  lemma LiteralsAsIs(list: seq<Expr>)
    requires forall l :: l in list ==> l.Lit?
    ensures RewriteExprs(list) == list
  {
    RewriteExprsAt(list);
  }

  lemma {:induction false} RewriteExprsConcat(a: seq<Expr>, b: seq<Expr>)
    ensures RewriteExprs(a + b) == RewriteExprs(a) + RewriteExprs(b)
  {
    if a == [] {
      assert a + b == b;
    } else {
      assert (a + b)[1..] == a[1..] + b;
      RewriteExprsConcat(a[1..], b);
    }
  }

  /** A rewritten predicate has the conjuncts rewritten. */
  lemma {:induction false} SplitRewritten(e: Expr)
    ensures Split(RewriteExpr(e)) == RewriteExprs(Split(e))
  {
    if e.Bin? && e.op == And {
      SplitRewritten(e.left);
      SplitRewritten(e.right);
      RewriteExprsConcat(Split(e.left), Split(e.right));
    } else {
      assert Split(e) == [e] && [e][1..] == [];
    }
  }

  lemma SafeRewritten(e: Expr)
    ensures CannotFail(RewriteExpr(e)) <==> CannotFail(e)
    ensures CannotFail(e) ==> RewriteExpr(e) == e
  {
    if CannotFail(RewriteExpr(e)) {
      SafeUnchanged(e);
    }
    if CannotFail(e) {
      SafeAsIs(e);
    }
  }

  /** The rewrite picks the same conjuncts of a rewritten predicate, and leaves them as they are. */
  lemma {:induction false} SelectRewritten(parts: seq<Expr>)
    ensures Select(RewriteExprs(parts), true) == Select(parts, true)
    ensures Select(RewriteExprs(parts), false) == RewriteExprs(Select(parts, false))
  {
    if parts != [] {
      SafeRewritten(parts[0]);
      SelectRewritten(parts[1..]);
      assert RewriteExprs(parts)[1..] == RewriteExprs(parts[1..]);
      var stay := if CannotFail(parts[0]) then [] else [parts[0]];
      assert Select(parts, false) == stay + Select(parts[1..], false);
      RewriteExprsConcat(stay, Select(parts[1..], false));
      assert stay != [] ==> stay[1..] == [];
      assert Select(RewriteExprs(parts), false) == RewriteExprs(stay) + Select(RewriteExprs(parts[1..]), false);
    }
  }

  /** What an expression's value becomes: the same, or an error it did not raise. */
  ghost predicate SameOr<T>(crosses: bool, now: Result<T, Error>, was: Result<T, Error>) {
    if crosses then now == was else now.Err?
  }

  lemma {:induction false} EvalKeeps(env: Env, e: Expr, row: Row, outer: Row)
    requires Eval(env, e, row, outer).Ok?
    ensures SameOr(CrossesExpr(env, e, row, outer), Eval(env, RewriteExpr(e), row, outer), Eval(env, e, row, outer))
    decreases e, 1
  {
    match e
    case Bin(_, _, _) => BinKeeps(env, e, row, outer);
    case InList(_, _, _) => ListKeeps(env, e, row, outer);
    case Call(_, args) => EvalAllKeeps(env, args, row, outer);
    case Exists(p, _) => RewriteKeeps(env, p, row);
    case Between(_, _, _, _) => SomeKeep(env, e, row, outer);
    case Like(_, _, _, _) => SomeKeep(env, e, row, outer);
    case _ => OneKeeps(env, e, row, outer);
  }

  lemma {:induction false} OneKeeps(env: Env, e: Expr, row: Row, outer: Row)
    requires |Children(e)| <= 1 && !e.InList? && !e.Call? && !e.Exists? && Eval(env, e, row, outer).Ok?
    ensures SameOr(CrossesExpr(env, e, row, outer), Eval(env, RewriteExpr(e), row, outer), Eval(env, e, row, outer))
    decreases e, 0
  {
    match e
    case Un(_, x) => EvalKeeps(env, x, row, outer);
    case TryCast(x, _) => EvalKeeps(env, x, row, outer);
    case Cast(x, _) => EvalKeeps(env, x, row, outer);
    case _ =>
  }

  lemma {:induction false} SomeKeep(env: Env, e: Expr, row: Row, outer: Row)
    requires (e.Between? || e.Like?) && Eval(env, e, row, outer).Ok?
    ensures SameOr(CrossesExpr(env, e, row, outer), Eval(env, RewriteExpr(e), row, outer), Eval(env, e, row, outer))
    decreases e, 0
  {
    match e
    case Between(x, lo, hi, _) =>
      EvalKeeps(env, x, row, outer);
      EvalKeeps(env, lo, row, outer);
      EvalKeeps(env, hi, row, outer);
    case Like(x, p, _, _) =>
      EvalKeeps(env, x, row, outer);
      EvalKeeps(env, p, row, outer);
  }

  lemma {:induction false} BinKeeps(env: Env, e: Expr, row: Row, outer: Row)
    requires e.Bin? && Eval(env, e, row, outer).Ok?
    ensures SameOr(CrossesExpr(env, e, row, outer), Eval(env, RewriteExpr(e), row, outer), Eval(env, e, row, outer))
    decreases e, 0
  {
    EvalKeeps(env, e.left, row, outer);
    if !(env.lazy && Decided(e.op, Eval(env, e.left, row, outer).value)) {
      EvalKeeps(env, e.right, row, outer);
    }
  }

  lemma {:induction false} ListKeeps(env: Env, e: Expr, row: Row, outer: Row)
    requires e.InList? && Eval(env, e, row, outer).Ok?
    ensures SameOr(CrossesExpr(env, e, row, outer), Eval(env, RewriteExpr(e), row, outer), Eval(env, e, row, outer))
    decreases e, 0
  {
    EvalKeeps(env, e.arg, row, outer);
    EvalAllKeeps(env, e.list, row, outer);
    assert forall c :: c in Children(e) <==> c == e.arg || c in e.list;
  }

  lemma {:induction false} EvalAllKeeps(env: Env, es: seq<Expr>, row: Row, outer: Row)
    requires EvalAll(env, es, row, outer).Ok?
    ensures SameOr(forall e :: e in es ==> CrossesExpr(env, e, row, outer),
                   EvalAll(env, RewriteExprs(es), row, outer), EvalAll(env, es, row, outer))
    decreases es, 0
  {
    if es != [] {
      assert forall e :: e in es <==> e == es[0] || e in es[1..];
      EvalKeeps(env, es[0], row, outer);
      EvalAllKeeps(env, es[1..], row, outer);
      assert RewriteExprs(es)[1..] == RewriteExprs(es[1..]);
    }
  }

  lemma KeepNext(env: Env, e: Expr, now: Expr, first: bool, rest: bool, rows: seq<Row>, outer: Row)
    requires rows != [] && Keep(env, e, rows, outer).Ok?
    requires SameOr(first, Eval(env, now, rows[0], outer), Eval(env, e, rows[0], outer))
    requires SameOr(rest, Keep(env, now, rows[1..], outer), Keep(env, e, rows[1..], outer))
    ensures SameOr(first && rest, Keep(env, now, rows, outer), Keep(env, e, rows, outer))
  {
  }

  lemma {:induction false} KeepKeeps(env: Env, e: Expr, rows: seq<Row>, outer: Row)
    requires Keep(env, e, rows, outer).Ok?
    ensures SameOr(forall row :: row in rows ==> CrossesExpr(env, e, row, outer),
                   Keep(env, RewriteExpr(e), rows, outer), Keep(env, e, rows, outer))
    decreases e, 2, |rows|
  {
    if rows != [] {
      assert forall row :: row in rows <==> row == rows[0] || row in rows[1..];
      EvalKeeps(env, e, rows[0], outer);
      KeepKeeps(env, e, rows[1..], outer);
      KeepNext(env, e, RewriteExpr(e), CrossesExpr(env, e, rows[0], outer),
               forall row :: row in rows[1..] ==> CrossesExpr(env, e, row, outer), rows, outer);
    }
  }

  lemma {:induction false} ProjectedKeeps(env: Env, names: seq<string>, es: seq<Expr>, rows: seq<Row>, outer: Row)
    requires Projected(env, names, es, rows, outer).Ok?
    ensures SameOr(forall row, e :: row in rows && e in es ==> CrossesExpr(env, e, row, outer),
                   Projected(env, names, RewriteExprs(es), rows, outer), Projected(env, names, es, rows, outer))
    decreases es, |rows| + 1
  {
    if rows != [] {
      assert forall row :: row in rows <==> row == rows[0] || row in rows[1..];
      EvalAllKeeps(env, es, rows[0], outer);
      ProjectedKeeps(env, names, es, rows[1..], outer);
    }
  }

  lemma PartsNext(env: Env, parts: seq<Expr>, now: seq<Expr>, first: bool, rest: bool, row: Row, outer: Row)
    requires parts != [] && now != [] && AllOf(env, parts, row, outer) != Fails
    requires SameOr(first, Eval(env, now[0], row, outer), Eval(env, parts[0], row, outer))
    requires (env.lazy && TruthOf(Eval(env, parts[0], row, outer)) == No)
             || AllOf(env, now[1..], row, outer) == if rest then AllOf(env, parts[1..], row, outer) else Fails
    ensures AllOf(env, now, row, outer) ==
            if first && ((env.lazy && TruthOf(Eval(env, parts[0], row, outer)) == No) || rest)
            then AllOf(env, parts, row, outer) else Fails
  {
  }

  lemma {:induction false} PartsKeep(env: Env, e: Expr, parts: seq<Expr>, row: Row, outer: Row)
    requires forall part :: part in parts ==> part == e || part < e
    requires AllOf(env, parts, row, outer) != Fails
    ensures AllOf(env, RewriteExprs(parts), row, outer) ==
            if CrossesParts(env, e, parts, row, outer) then AllOf(env, parts, row, outer) else Fails
    decreases e, 2, |parts|
  {
    if parts != [] {
      assert parts[0] in parts && forall part :: part in parts[1..] ==> part in parts;
      var t := TruthOf(Eval(env, parts[0], row, outer));
      var now := RewriteExprs(parts);
      assert now[0] == RewriteExpr(parts[0]) && now[1..] == RewriteExprs(parts[1..]);
      EvalKeeps(env, parts[0], row, outer);
      if !(env.lazy && t == No) {
        PartsKeep(env, e, parts[1..], row, outer);
      }
      PartsNext(env, parts, now, CrossesExpr(env, parts[0], row, outer),
                CrossesParts(env, e, parts[1..], row, outer), row, outer);
    }
  }

  lemma {:induction false} TestKeeps(env: Env, e: Expr, row: Row, outer: Row)
    requires Eval(env, e, row, outer).Ok? && Select(Split(e), true) != []
    ensures var seen := Seen(env, Conjunction(Select(Split(e), true)),
                             AboveGate(RewriteExprs(Select(Split(e), false))), row, outer);
            && (seen != Fails <==> CrossesTest(env, e, row, outer))
            && (seen != Fails ==> (seen == Yes <==> TruthOf(Eval(env, e, row, outer)) == Yes))
    decreases e, 3
  {
    var (safe, rest) := (Select(Split(e), true), Select(Split(e), false));
    SplitTruth(env, e, row, outer);
    SelectIn(Split(e), false);
    SeenParts(env, safe, RewriteExprs(rest), row, outer);
    if AllOf(env, safe, row, outer) != Fails {
      SafeFirst(env, Split(e), row, outer);
      if AllOf(env, safe, row, outer) == Yes {
        PartsKeep(env, e, rest, row, outer);
      }
    }
  }

  lemma {:induction false} FilterKeeps(env: Env, e: Expr, gate: Plan, outer: Row)
    requires gate.Gate? && Select(Split(e), true) != [] && Run(env, gate, outer).Ok?
    requires Keep(env, e, Run(env, gate, outer).value, outer).Ok?
    ensures SameOr(forall row :: row in Run(env, gate, outer).value ==> CrossesTest(env, e, row, outer),
                   Run(env, Barrier(Filter(RewriteExpr(e), gate)), outer),
                   Keep(env, e, Run(env, gate, outer).value, outer))
    decreases e, 4
  {
    var rows := Run(env, gate, outer).value;
    var (safe, rest) := (Select(Split(e), true), Select(Split(e), false));
    SplitRewritten(e);
    SelectRewritten(Split(e));
    RunBarrier(env, RewriteExpr(e), gate, outer);
    KeptEval(env, e, rows, outer);
    var (below, above) := (Conjunction(safe), AboveGate(RewriteExprs(rest)));
    forall row | row in rows
      ensures var seen := Seen(env, below, above, row, outer);
              && (seen != Fails <==> CrossesTest(env, e, row, outer))
              && (seen != Fails ==> (seen == Yes <==> TruthOf(Eval(env, e, row, outer)) == Yes))
    {
      TestKeeps(env, e, row, outer);
    }
    KeepTwice(env, e, below, above, rows, outer);
  }

  /** Of a plan that gives rows the rewritten plan gives the same rows exactly when what it moves
      below gates has a value wherever the plan comes to it; otherwise it raises an error. */
  lemma {:induction false} RewriteKeeps(env: Env, p: Plan, outer: Row)
    requires Run(env, p, outer).Ok?
    ensures SameOr(Crosses(env, p, outer), Run(env, Rewrite(p), outer), Run(env, p, outer))
    decreases p, 0
  {
    match p
    case Scan(_, _) =>
    case Gate(_, _, input) => RewriteKeeps(env, input, outer);
    case Filter(e, input) =>
      RewriteKeeps(env, input, outer);
      if Crosses(env, input, outer) {
        if Rewrite(input).Gate? && Select(Split(e), true) != [] {
          FilterKeeps(env, e, Rewrite(input), outer);
        } else {
          NotMoved(e, Rewrite(input));
          KeepKeeps(env, e, Run(env, input, outer).value, outer);
        }
      } else {
        BarrierErr(env, Filter(RewriteExpr(e), Rewrite(input)), outer);
      }
    case Project(names, es, input) =>
      RewriteKeeps(env, input, outer);
      ProjectedKeeps(env, names, es, Run(env, input, outer).value, outer);
    case Node(_, inputs) => RewriteAllKeeps(env, inputs, outer);
  }

  lemma NotMoved(e: Expr, input: Plan)
    requires !input.Gate? || Select(Split(e), true) == []
    ensures Barrier(Filter(RewriteExpr(e), input)) == Filter(RewriteExpr(e), input)
  {
    SplitRewritten(e);
    SelectRewritten(Split(e));
  }

  lemma BarrierErr(env: Env, p: Plan, outer: Row)
    requires p.Filter? && Run(env, p.input, outer).Err?
    ensures Run(env, Barrier(p), outer).Err?
  {
    if p.input.Gate? && Select(Split(p.test), true) != [] {
      var (safe, rest) := (Select(Split(p.test), true), Select(Split(p.test), false));
      var gated := Gate(p.input.gated, p.input.compilationHash, Filter(Conjunction(safe), p.input.input));
      assert Run(env, gated, outer).Err?;
      assert Barrier(p) == if rest == [] then gated else Filter(Conjunction(rest), gated);
    }
  }

  lemma {:induction false} RewriteAllKeeps(env: Env, ps: seq<Plan>, outer: Row)
    requires RunAll(env, ps, outer).Ok?
    ensures SameOr(forall p :: p in ps ==> Crosses(env, p, outer),
                   RunAll(env, RewriteAll(ps), outer), RunAll(env, ps, outer))
    decreases ps, 0
  {
    if ps != [] {
      assert forall p :: p in ps <==> p == ps[0] || p in ps[1..];
      RewriteKeeps(env, ps[0], outer);
      RewriteAllKeeps(env, ps[1..], outer);
      assert RewriteAll(ps)[1..] == RewriteAll(ps[1..]);
    }
  }

  // ── when every plan crosses ─────────────────────────────────────────────────

  /** Of conjuncts in order, each that is let through and comes after one that stays (`after`: one
      stood before all of these) has only constant casts that fold. */
  ghost predicate LateFold(env: Env, parts: seq<Expr>, after: bool) {
    parts != [] ==>
      && (after && CannotFail(parts[0]) ==> CastsFold(env, parts[0]))
      && LateFold(env, parts[1..], after || !CannotFail(parts[0]))
  }

  /** So it is of every filter the rewrite finds over a gate, in subqueries too. */
  ghost predicate PlanFolds(env: Env, p: Plan)
    decreases p, 0
  {
    match p
    case Scan(_, _) => true
    case Filter(e, input) =>
      (Rewrite(input).Gate? ==> LateFold(env, Split(e), false)) && ExprFolds(env, e) && PlanFolds(env, input)
    case Gate(_, _, input) => PlanFolds(env, input)
    case Project(_, es, input) => (forall e :: e in es ==> ExprFolds(env, e)) && PlanFolds(env, input)
    case Node(_, inputs) => forall q :: q in inputs ==> PlanFolds(env, q)
  }

  ghost predicate ExprFolds(env: Env, e: Expr)
    decreases e, 0
  {
    (e.Exists? ==> PlanFolds(env, e.subquery)) && forall c :: c in Children(e) ==> ExprFolds(env, c)
  }

  lemma {:induction false} StrictParts(env: Env, parts: seq<Expr>, row: Row, outer: Row)
    requires !env.lazy && AllOf(env, parts, row, outer) != Fails
    ensures forall e :: e in parts ==> Eval(env, e, row, outer).Ok?
  {
    if parts != [] {
      StrictParts(env, parts[1..], row, outer);
    }
  }

  lemma {:induction false} LateParts(env: Env, parts: seq<Expr>, row: Row, outer: Row)
    requires LateFold(env, parts, true)
    ensures AllOf(env, Select(parts, true), row, outer) != Fails
  {
    if parts != [] {
      LateParts(env, parts[1..], row, outer);
      SelectTruth(env, parts, true, row, outer);
      if CannotFail(parts[0]) {
        NeverFails(env, parts[0], row, outer);
      }
    }
  }

  /** Of conjuncts that do not fail together, those let through do not: before any that stays they
      are evaluated as they were, and after one they have a value on any row. */
  lemma {:induction false} LazyParts(env: Env, parts: seq<Expr>, row: Row, outer: Row)
    requires LateFold(env, parts, false) && AllOf(env, parts, row, outer) != Fails
    ensures AllOf(env, Select(parts, true), row, outer) != Fails
  {
    if parts != [] {
      SelectTruth(env, parts, true, row, outer);
      if !CannotFail(parts[0]) {
        LateParts(env, parts[1..], row, outer);
      } else if AllOf(env, parts[1..], row, outer) != Fails {
        LazyParts(env, parts[1..], row, outer);
      }
    }
  }

  lemma PartsSafe(env: Env, parts: seq<Expr>, row: Row, outer: Row)
    requires (env.lazy ==> LateFold(env, parts, false)) && AllOf(env, parts, row, outer) != Fails
    ensures AllOf(env, Select(parts, true), row, outer) != Fails
  {
    if env.lazy {
      LazyParts(env, parts, row, outer);
    } else {
      StrictParts(env, parts, row, outer);
      SelectIn(parts, true);
      NoneFails(env, Select(parts, true), row, outer);
    }
  }

  lemma {:induction false} SplitFolds(env: Env, e: Expr)
    requires ExprFolds(env, e)
    ensures forall part :: part in Split(e) ==> ExprFolds(env, part)
  {
    if e.Bin? && e.op == And {
      assert e.left in Children(e) && e.right in Children(e);
      SplitFolds(env, e.left);
      SplitFolds(env, e.right);
    }
  }

  lemma {:induction false} FoldsCrossExpr(env: Env, e: Expr, row: Row, outer: Row)
    requires (env.lazy ==> ExprFolds(env, e)) && Eval(env, e, row, outer).Ok?
    ensures CrossesExpr(env, e, row, outer)
    decreases e, 0
  {
    match e
    case Bin(op, l, r) =>
      assert l in Children(e) && r in Children(e);
      FoldsCrossExpr(env, l, row, outer);
      if !(env.lazy && Decided(op, Eval(env, l, row, outer).value)) {
        FoldsCrossExpr(env, r, row, outer);
      }
    case InList(x, list, _) =>
      assert x in Children(e) && forall c :: c in list ==> c in Children(e);
      FoldsCrossExpr(env, x, row, outer);
      FoldsCrossAll(env, list, row, outer);
    case Call(_, args) => FoldsCrossAll(env, args, row, outer);
    case Exists(p, _) => FoldsCross(env, p, row);
    case Un(_, x) => FoldsCrossEach(env, e, [x], row, outer);
    case TryCast(x, _) => FoldsCrossEach(env, e, [x], row, outer);
    case Cast(x, _) => FoldsCrossEach(env, e, [x], row, outer);
    case Between(x, lo, hi, _) => FoldsCrossEach(env, e, [x, lo, hi], row, outer);
    case Like(x, p, _, _) => FoldsCrossEach(env, e, [x, p], row, outer);
    case _ =>
  }

  lemma {:induction false} FoldsCrossEach(env: Env, e: Expr, es: seq<Expr>, row: Row, outer: Row)
    requires Children(e) == es && (env.lazy ==> ExprFolds(env, e))
    requires forall c :: c in es ==> Eval(env, c, row, outer).Ok?
    ensures forall c :: c in es ==> CrossesExpr(env, c, row, outer)
    decreases e, 0, |es|
  {
    forall c | c in es
      ensures CrossesExpr(env, c, row, outer)
    {
      FoldsCrossExpr(env, c, row, outer);
    }
  }

  lemma {:induction false} FoldsCrossAll(env: Env, es: seq<Expr>, row: Row, outer: Row)
    requires (env.lazy ==> forall e :: e in es ==> ExprFolds(env, e)) && EvalAll(env, es, row, outer).Ok?
    ensures forall e :: e in es ==> CrossesExpr(env, e, row, outer)
    decreases es, 0
  {
    if es != [] {
      assert es[0] in es && forall e :: e in es <==> e == es[0] || e in es[1..];
      FoldsCrossExpr(env, es[0], row, outer);
      FoldsCrossAll(env, es[1..], row, outer);
    }
  }

  lemma {:induction false} FoldsCrossParts(env: Env, e: Expr, parts: seq<Expr>, row: Row, outer: Row)
    requires forall part :: part in parts ==> part == e || part < e
    requires (env.lazy ==> forall part :: part in parts ==> ExprFolds(env, part))
             && AllOf(env, parts, row, outer) != Fails
    ensures CrossesParts(env, e, parts, row, outer)
    decreases e, 1, |parts|
  {
    if parts != [] {
      assert parts[0] in parts && forall part :: part in parts[1..] ==> part in parts;
      FoldsCrossExpr(env, parts[0], row, outer);
      if !(env.lazy && TruthOf(Eval(env, parts[0], row, outer)) == No) {
        FoldsCrossParts(env, e, parts[1..], row, outer);
      }
    }
  }

  lemma {:induction false} FoldsCrossTest(env: Env, e: Expr, row: Row, outer: Row)
    requires (env.lazy ==> LateFold(env, Split(e), false) && ExprFolds(env, e)) && Eval(env, e, row, outer).Ok?
    ensures CrossesTest(env, e, row, outer)
    decreases e, 2
  {
    SplitTruth(env, e, row, outer);
    PartsSafe(env, Split(e), row, outer);
    SafeFirst(env, Split(e), row, outer);
    SelectIn(Split(e), false);
    if AllOf(env, Select(Split(e), true), row, outer) == Yes {
      if env.lazy {
        SplitFolds(env, e);
      }
      FoldsCrossParts(env, e, Select(Split(e), false), row, outer);
    }
  }

  /** A plan that gives rows crosses: always where AND and OR evaluate both sides, and where they may
      not, when the constant casts fold of each conjunct let through that comes after one that
      stays. */
  lemma {:induction false} FoldsCross(env: Env, p: Plan, outer: Row)
    requires (env.lazy ==> PlanFolds(env, p)) && Run(env, p, outer).Ok?
    ensures Crosses(env, p, outer)
    decreases p, 0
  {
    match p
    case Scan(_, _) =>
    case Gate(_, _, input) => FoldsCross(env, input, outer);
    case Filter(e, input) =>
      FoldsCross(env, input, outer);
      KeptEval(env, e, Run(env, input, outer).value, outer);
      forall row | row in RowsOf(env, input, outer)
        ensures if Rewrite(input).Gate? && Select(Split(e), true) != [] then CrossesTest(env, e, row, outer)
                else CrossesExpr(env, e, row, outer)
      {
        if Rewrite(input).Gate? && Select(Split(e), true) != [] {
          FoldsCrossTest(env, e, row, outer);
        } else {
          FoldsCrossExpr(env, e, row, outer);
        }
      }
    case Project(names, es, input) =>
      FoldsCross(env, input, outer);
      ProjectedEval(env, names, es, Run(env, input, outer).value, outer);
      forall row | row in RowsOf(env, input, outer)
        ensures forall e :: e in es ==> CrossesExpr(env, e, row, outer)
      {
        FoldsCrossAll(env, es, row, outer);
      }
    case Node(_, inputs) => FoldsCrossInputs(env, inputs, outer);
  }

  lemma {:induction false} ProjectedEval(env: Env, names: seq<string>, es: seq<Expr>, rows: seq<Row>, outer: Row)
    requires Projected(env, names, es, rows, outer).Ok?
    ensures forall row :: row in rows ==> EvalAll(env, es, row, outer).Ok?
  {
    if rows != [] {
      ProjectedEval(env, names, es, rows[1..], outer);
    }
  }

  lemma {:induction false} FoldsCrossInputs(env: Env, ps: seq<Plan>, outer: Row)
    requires (env.lazy ==> forall p :: p in ps ==> PlanFolds(env, p)) && RunAll(env, ps, outer).Ok?
    ensures forall p :: p in ps ==> Crosses(env, p, outer)
    decreases ps, 0
  {
    if ps != [] {
      assert ps[0] in ps && forall p :: p in ps <==> p == ps[0] || p in ps[1..];
      FoldsCross(env, ps[0], outer);
      FoldsCrossInputs(env, ps[1..], outer);
    }
  }

  /** So the rewritten plan gives the same rows: always where AND and OR evaluate both sides, and
      otherwise when the casts that a plan can be seen to move out from behind a conjunct fold. */
  lemma FoldedKeeps(env: Env, p: Plan, outer: Row)
    requires (env.lazy ==> PlanFolds(env, p)) && Run(env, p, outer).Ok?
    ensures Run(env, Rewrite(p), outer) == Run(env, p, outer)
  {
    FoldsCross(env, p, outer);
    RewriteKeeps(env, p, outer);
  }

  // ── what goes below the gate ────────────────────────────────────────────────

  /** The conjuncts of a predicate that are let through have only constant casts that fold. */
  ghost predicate PartsFold(env: Env, e: Expr) {
    forall part :: part in Split(e) && CannotFail(part) ==> CastsFold(env, part)
  }

  lemma {:induction false} ConjunctionSafe(env: Env, parts: seq<Expr>)
    requires parts != [] && forall e :: e in parts ==> CannotFail(e) && CastsFold(env, e)
    ensures CannotFail(Conjunction(parts)) && CastsFold(env, Conjunction(parts))
  {
    var n := |parts| - 1;
    assert parts[n] in parts;
    if n > 0 {
      ConjunctionSafe(env, parts[..n]);
      var c := Conjunction(parts);
      assert Children(c) == [Conjunction(parts[..n]), parts[n]];
    }
  }

  /** What a gate gets below it is what it had, or a filter over that which raises no error on any
      row whatever, shown to the caller or not. */
  lemma BelowGate(env: Env, p: Plan, row: Row, outer: Row)
    requires p.Filter? && p.input.Gate? && PartsFold(env, p.test) && Barrier(p) != p
    ensures var gate := if Barrier(p).Gate? then Barrier(p) else Barrier(p).input;
            && gate.Gate? && gate.gated == p.input.gated && gate.compilationHash == p.input.compilationHash
            && gate.input.Filter? && gate.input.input == p.input.input
            && Eval(env, gate.input.test, row, outer).Ok?
  {
    var safe := Select(Split(p.test), true);
    SelectIn(Split(p.test), true);
    ConjunctionSafe(env, safe);
    NeverFails(env, Conjunction(safe), row, outer);
  }

  /** `e` is a conjunct of a filter of the plan, or of a subquery in it, and `gates` are the gates
      above it, outermost first; `under` are those above the plan. */
  ghost predicate At(p: Plan, under: seq<string>, e: Expr, gates: seq<string>)
    decreases p, 0
  {
    match p
    case Scan(_, _) => false
    case Filter(t, input) =>
      (e in Split(t) && gates == under) || AtExpr(t, under, e, gates) || At(input, under, e, gates)
    case Gate(c, _, input) => At(input, under + [c], e, gates)
    case Project(_, es, input) => (exists x :: x in es && AtExpr(x, under, e, gates)) || At(input, under, e, gates)
    case Node(_, inputs) => exists q :: q in inputs && At(q, under, e, gates)
  }

  ghost predicate AtExpr(x: Expr, under: seq<string>, e: Expr, gates: seq<string>)
    decreases x, 0
  {
    (x.Exists? && At(x.subquery, under, e, gates)) || exists c :: c in Children(x) && AtExpr(c, under, e, gates)
  }

  /** A predicate let through has no subquery. */
  lemma {:induction false} SafeHasNone(x: Expr, under: seq<string>, e: Expr, gates: seq<string>)
    requires CannotFail(x)
    ensures !AtExpr(x, under, e, gates)
    decreases x
  {
    forall c | c in Children(x)
      ensures !AtExpr(c, under, e, gates)
    {
      SafeHasNone(c, under, e, gates);
    }
  }

  lemma {:induction false} SplitAt(x: Expr, under: seq<string>, e: Expr, gates: seq<string>)
    ensures AtExpr(x, under, e, gates) <==> exists part :: part in Split(x) && AtExpr(part, under, e, gates)
  {
    if x.Bin? && x.op == And {
      SplitAt(x.left, under, e, gates);
      SplitAt(x.right, under, e, gates);
      assert x.left in Children(x) && x.right in Children(x);
    }
  }

  lemma {:induction false} SplitConjunction(parts: seq<Expr>)
    requires parts != [] && forall part :: part in parts ==> Split(part) == [part]
    ensures Split(Conjunction(parts)) == parts
  {
    var n := |parts| - 1;
    assert parts[n] in parts && parts == parts[..n] + [parts[n]];
    if n > 0 {
      SplitConjunction(parts[..n]);
    }
  }

  lemma {:induction false} PartsAreWhole(x: Expr)
    ensures forall part :: part in Split(x) ==> Split(part) == [part]
  {
    if x.Bin? && x.op == And {
      PartsAreWhole(x.left);
      PartsAreWhole(x.right);
    }
  }

  /** Conjuncts picked out of a predicate and joined again are those conjuncts, with no subquery the
      predicate does not have. */
  lemma PickedAt(x: Expr, safe: bool, under: seq<string>, e: Expr, gates: seq<string>)
    requires Select(Split(x), safe) != []
    ensures var y := Conjunction(Select(Split(x), safe));
            && Split(y) == Select(Split(x), safe)
            && (AtExpr(y, under, e, gates) ==> !safe && AtExpr(x, under, e, gates))
  {
    PartsAreWhole(x);
    SelectIn(Split(x), safe);
    var parts := Select(Split(x), safe);
    SplitConjunction(parts);
    var y := Conjunction(parts);
    SplitAt(y, under, e, gates);
    SplitAt(x, under, e, gates);
    if AtExpr(y, under, e, gates) {
      var part :| part in parts && AtExpr(part, under, e, gates);
      if CannotFail(part) {
        SafeHasNone(part, under, e, gates);
      }
    }
  }

  lemma GatedAt(gate: Plan, below: Expr, under: seq<string>, e: Expr, gates: seq<string>)
    requires gate.Gate? && At(Gate(gate.gated, gate.compilationHash, Filter(below, gate.input)), under, e, gates)
    requires e !in Split(below) && !AtExpr(below, under + [gate.gated], e, gates)
    ensures At(gate, under, e, gates)
  {
    assert At(Filter(below, gate.input), under + [gate.gated], e, gates);
  }

  /** One node of the rewrite puts no conjunct that may fail below a gate it was not below. */
  lemma BarrierAt(p: Plan, under: seq<string>, e: Expr, gates: seq<string>)
    requires At(Barrier(p), under, e, gates) && !CannotFail(e)
    ensures At(p, under, e, gates)
  {
    if p.Filter? && p.input.Gate? && Select(Split(p.test), true) != [] {
      var (gate, parts) := (p.input, Split(p.test));
      var (safe, rest) := (Select(parts, true), Select(parts, false));
      var gated := Gate(gate.gated, gate.compilationHash, Filter(Conjunction(safe), gate.input));
      SelectIn(parts, true);
      SelectIn(parts, false);
      PickedAt(p.test, true, under + [gate.gated], e, gates);
      if At(gated, under, e, gates) {
        GatedAt(gate, Conjunction(safe), under, e, gates);
      } else {
        assert rest != [] && Barrier(p) == Filter(Conjunction(rest), gated);
        PickedAt(p.test, false, under, e, gates);
      }
    }
  }

  /** Whatever conjunct of the rewritten plan may fail stands, as the plan had it, under exactly the
      gates it stood under there: every other conjunct below a gate fails on no row. */
  lemma {:induction false} RewriteAt(p: Plan, under: seq<string>, e: Expr, gates: seq<string>) returns (was: Expr)
    requires At(Rewrite(p), under, e, gates) && !CannotFail(e)
    ensures At(p, under, was, gates) && e == RewriteExpr(was)
    decreases p, 0
  {
    match p
    case Scan(_, _) => was := e;
    case Gate(c, _, input) => was := RewriteAt(input, under + [c], e, gates);
    case Filter(t, input) =>
      BarrierAt(Filter(RewriteExpr(t), Rewrite(input)), under, e, gates);
      if At(Rewrite(input), under, e, gates) {
        was := RewriteAt(input, under, e, gates);
      } else if AtExpr(RewriteExpr(t), under, e, gates) {
        was := RewriteAtExpr(t, under, e, gates);
      } else {
        SplitRewritten(t);
        RewriteExprsAt(Split(t));
        var i :| 0 <= i < |Split(t)| && RewriteExprs(Split(t))[i] == e;
        was := Split(t)[i];
      }
    case Project(_, es, input) =>
      if At(Rewrite(input), under, e, gates) {
        was := RewriteAt(input, under, e, gates);
      } else {
        RewriteExprsAt(es);
        var x :| x in RewriteExprs(es) && AtExpr(x, under, e, gates);
        var i :| 0 <= i < |es| && RewriteExprs(es)[i] == x;
        was := RewriteAtExpr(es[i], under, e, gates);
      }
    case Node(_, inputs) =>
      RewriteAllAt(inputs);
      var q :| q in RewriteAll(inputs) && At(q, under, e, gates);
      var i :| 0 <= i < |inputs| && RewriteAll(inputs)[i] == q;
      was := RewriteAt(inputs[i], under, e, gates);
  }

  lemma {:induction false} RewriteAtExpr(x: Expr, under: seq<string>, e: Expr, gates: seq<string>) returns (was: Expr)
    requires AtExpr(RewriteExpr(x), under, e, gates) && !CannotFail(e)
    ensures AtExpr(x, under, was, gates) && e == RewriteExpr(was)
    decreases x, 0
  {
    if x.Exists? {
      was := RewriteAt(x.subquery, under, e, gates);
    } else {
      var c := ChildAt(x, under, e, gates);
      was := RewriteAtExpr(c, under, e, gates);
    }
  }

  lemma ChildAt(x: Expr, under: seq<string>, e: Expr, gates: seq<string>) returns (c: Expr)
    requires !x.Exists? && AtExpr(RewriteExpr(x), under, e, gates)
    ensures c in Children(x) && AtExpr(RewriteExpr(c), under, e, gates)
  {
    RewrittenChildren(x);
    RewriteExprsAt(Children(x));
    assert !RewriteExpr(x).Exists?;
    var d :| d in Children(RewriteExpr(x)) && AtExpr(d, under, e, gates);
    var i :| 0 <= i < |Children(x)| && RewriteExprs(Children(x))[i] == d;
    c := Children(x)[i];
  }

  lemma {:induction false} RewriteAllAt(ps: seq<Plan>)
    ensures |RewriteAll(ps)| == |ps| && forall i :: 0 <= i < |ps| ==> RewriteAll(ps)[i] == Rewrite(ps[i])
  {
    if ps != [] {
      RewriteAllAt(ps[1..]);
    }
  }

  /** Where AND may leave its right side unevaluated and a constant cast has no value, the rewrite
      can raise an error the plan does not: the cast is taken out from behind a call that decides. */
  lemma LazyCastFails(env: Env)
    requires env.lazy && env.cast(Str("x"), "Int64") == None && env.call("never", []) == Some(Bool(false))
    requires env.scan("c", "t") != []
    ensures var p := Filter(Bin(And, Call("never", []), Un(IsNull, Cast(Lit(Str("x")), "Int64"))),
                            Gate("c", "", Scan("c", "t")));
            Run(env, p, map[]) == Ok([]) && Run(env, Rewrite(p), map[]) == Err(CastFailed)
  {
    var (never, cast) := (Call("never", []), Un(IsNull, Cast(Lit(Str("x")), "Int64")));
    var e := Bin(And, never, cast);
    var p := Filter(e, Gate("c", "", Scan("c", "t")));
    var rows := env.scan("c", "t");
    NoneKept(env, e, never, rows);
    AsWritten(never, cast, p);
    TakenOut(never, cast, p.input);
    CastRaises(env, cast, rows);
  }

  lemma CastRaises(env: Env, cast: Expr, rows: seq<Row>)
    requires cast == Un(IsNull, Cast(Lit(Str("x")), "Int64")) && env.cast(Str("x"), "Int64") == None && rows != []
    ensures Keep(env, cast, rows, map[]) == Err(CastFailed)
  {
    assert Eval(env, Cast(Lit(Str("x")), "Int64"), rows[0], map[]) == Err(CastFailed);
    assert Eval(env, cast, rows[0], map[]) == Err(CastFailed);
  }

  lemma AsWritten(never: Expr, cast: Expr, p: Plan)
    requires never == Call("never", []) && cast == Un(IsNull, Cast(Lit(Str("x")), "Int64"))
    requires p == Filter(Bin(And, never, cast), Gate("c", "", Scan("c", "t")))
    ensures Rewrite(p) == Barrier(p)
  {
    assert RewriteExpr(never) == never && RewriteExpr(cast) == cast;
  }

  /** Of a call and a cast of a constant, the cast goes below the gate. */
  lemma TakenOut(never: Expr, cast: Expr, gate: Plan)
    requires never == Call("never", []) && cast == Un(IsNull, Cast(Lit(Str("x")), "Int64")) && gate.Gate?
    ensures Barrier(Filter(Bin(And, never, cast), gate)) ==
            Filter(never, Gate(gate.gated, gate.compilationHash, Filter(cast, gate.input)))
  {
    assert CannotFail(cast) by {
      assert CannotFail(Lit(Str("x")));
      assert CannotFail(Cast(Lit(Str("x")), "Int64"));
    }
    assert Split(never) == [never] && Split(cast) == [cast];
    assert [never, cast][1..] == [cast] && [cast][1..] == [];
    assert Select([], true) == [] && Select([], false) == [];
    assert Select([cast], true) == [cast];
    assert Select([cast], false) == [];
    assert !CannotFail(never);
    assert Select([never, cast], true) == [cast];
    assert Select([never, cast], false) == [never];
  }

  lemma {:induction false} NoneKept(env: Env, e: Expr, never: Expr, rows: seq<Row>)
    requires env.lazy && e.Bin? && e.op == And && e.left == never == Call("never", [])
    requires env.call("never", []) == Some(Bool(false))
    ensures Keep(env, e, rows, map[]) == Ok([])
  {
    if rows != [] {
      assert EvalAll(env, [], rows[0], map[]) == Ok([]);
      assert Eval(env, never, rows[0], map[]) == Ok(Bool(false));
      assert Eval(env, e, rows[0], map[]) == Ok(Bool(false));
      KeepStep(env, e, rows, map[]);
      NoneKept(env, e, never, rows[1..]);
    }
  }

  // ── plans that may run ──────────────────────────────────────────────────────

  /** Accepts a plan when the nearest gate above each scan is the scan's own contract's. */
  function EnsureGated(p: Plan, gate: Option<string>): Result<(), string>
    decreases p, 0
  {
    match p
    case Scan(contract, _) => if gate == Some(contract) then Ok(()) else Err(contract)
    case Filter(e, input) =>
      var r := EnsureGatedExpr(e, gate);
      if r.Err? then r else EnsureGated(input, gate)
    case Gate(c, _, input) => EnsureGated(input, Some(c))
    case Project(_, es, input) =>
      var r := EnsureGatedExprs(es, gate);
      if r.Err? then r else EnsureGated(input, gate)
    case Node(_, inputs) => EnsureGatedAll(inputs, gate)
  }

  function EnsureGatedAll(ps: seq<Plan>, gate: Option<string>): Result<(), string>
    decreases ps, 0
  {
    if ps == [] then Ok(())
    else
      var r := EnsureGated(ps[0], gate);
      if r.Err? then r else EnsureGatedAll(ps[1..], gate)
  }

  /** A subquery runs under the gate its expression is under. */
  function EnsureGatedExpr(e: Expr, gate: Option<string>): Result<(), string>
    decreases e, 1
  {
    if e.Exists? then EnsureGated(e.subquery, gate) else EnsureGatedChildren(e, Children(e), gate)
  }

  function EnsureGatedChildren(e: Expr, es: seq<Expr>, gate: Option<string>): Result<(), string>
    requires forall c :: c in es ==> c < e
    decreases e, 0, |es|
  {
    if es == [] then Ok(())
    else
      assert es[0] in es && forall c :: c in es[1..] ==> c in es;
      var r := EnsureGatedExpr(es[0], gate);
      if r.Err? then r else EnsureGatedChildren(e, es[1..], gate)
  }

  function EnsureGatedExprs(es: seq<Expr>, gate: Option<string>): Result<(), string>
    decreases es, 0
  {
    if es == [] then Ok(())
    else
      var r := EnsureGatedExpr(es[0], gate);
      if r.Err? then r else EnsureGatedExprs(es[1..], gate)
  }

  lemma {:induction false} ChildrenGated(e: Expr, es: seq<Expr>, gate: Option<string>)
    requires forall c :: c in es ==> c < e
    ensures EnsureGatedChildren(e, es, gate) == EnsureGatedExprs(es, gate)
  {
    if es != [] {
      assert forall c :: c in es[1..] ==> c in es;
      ChildrenGated(e, es[1..], gate);
    }
  }

  lemma {:induction false} ExprsGated(es: seq<Expr>, gate: Option<string>)
    ensures EnsureGatedExprs(es, gate).Ok? <==> forall e :: e in es ==> EnsureGatedExpr(e, gate).Ok?
  {
    if es != [] {
      ExprsGated(es[1..], gate);
      assert es[0] in es && forall e :: e in es <==> e == es[0] || e in es[1..];
    }
  }

  /** The plan scans `contract`, itself or in a subquery, and `gates` are the gates above that scan,
      outermost first; `under` are those above the plan. */
  ghost predicate ScanAt(p: Plan, under: seq<string>, contract: string, gates: seq<string>)
    decreases p, 0
  {
    match p
    case Scan(c, _) => c == contract && gates == under
    case Filter(t, input) => ScanAtExpr(t, under, contract, gates) || ScanAt(input, under, contract, gates)
    case Gate(c, _, input) => ScanAt(input, under + [c], contract, gates)
    case Project(_, es, input) =>
      (exists x :: x in es && ScanAtExpr(x, under, contract, gates)) || ScanAt(input, under, contract, gates)
    case Node(_, inputs) => exists q :: q in inputs && ScanAt(q, under, contract, gates)
  }

  ghost predicate ScanAtExpr(x: Expr, under: seq<string>, contract: string, gates: seq<string>)
    decreases x, 0
  {
    (x.Exists? && ScanAt(x.subquery, under, contract, gates))
    || exists c :: c in Children(x) && ScanAtExpr(c, under, contract, gates)
  }

  /** The gate just above a scan is the scanned contract's own. */
  ghost predicate OwnGate(contract: string, gates: seq<string>) {
    gates != [] && gates[|gates| - 1] == contract
  }

  /** The innermost of the gates above. */
  function Innermost(under: seq<string>): Option<string> {
    if under == [] then None else Some(under[|under| - 1])
  }

  /** Every scan of the plan is under its own gate; and if not, the error names a scanned contract that
      is not. */
  ghost predicate Judges(p: Plan, under: seq<string>, r: Result<(), string>) {
    && (r.Ok? <==> forall contract, gates :: ScanAt(p, under, contract, gates) ==> OwnGate(contract, gates))
    && (r.Err? ==> exists gates :: ScanAt(p, under, r.error, gates) && !OwnGate(r.error, gates))
  }

  ghost predicate JudgesExpr(x: Expr, under: seq<string>, r: Result<(), string>) {
    && (r.Ok? <==> forall contract, gates :: ScanAtExpr(x, under, contract, gates) ==> OwnGate(contract, gates))
    && (r.Err? ==> exists gates :: ScanAtExpr(x, under, r.error, gates) && !OwnGate(r.error, gates))
  }

  ghost predicate JudgesExprs(es: seq<Expr>, under: seq<string>, r: Result<(), string>) {
    && (r.Ok? <==> forall x, contract, gates :: x in es && ScanAtExpr(x, under, contract, gates) ==>
                     OwnGate(contract, gates))
    && (r.Err? ==> exists x, gates :: x in es && ScanAtExpr(x, under, r.error, gates) && !OwnGate(r.error, gates))
  }

  ghost predicate JudgesAll(ps: seq<Plan>, under: seq<string>, r: Result<(), string>) {
    && (r.Ok? <==> forall q, contract, gates :: q in ps && ScanAt(q, under, contract, gates) ==>
                     OwnGate(contract, gates))
    && (r.Err? ==> exists q, gates :: q in ps && ScanAt(q, under, r.error, gates) && !OwnGate(r.error, gates))
  }

  /** A plan is accepted exactly when every scan of it, and of its subqueries, stands under the gate of
      the contract it scans, with no gate between; a refusal names a contract scanned otherwise. */
  lemma {:induction false} GatedExactly(p: Plan, under: seq<string>)
    ensures Judges(p, under, EnsureGated(p, Innermost(under)))
    decreases p, 0
  {
    match p
    case Scan(c, _) =>
      assert ScanAt(p, under, c, under);
    case Gate(c, _, input) =>
      assert Innermost(under + [c]) == Some(c);
      GatedExactly(input, under + [c]);
    case Filter(e, input) =>
      GatedExactlyExpr(e, under);
      GatedExactly(input, under);
    case Project(_, es, input) =>
      GatedExactlyExprs(es, under);
      GatedExactly(input, under);
    case Node(_, inputs) => GatedExactlyAll(inputs, under);
  }

  lemma {:induction false} GatedExactlyAll(ps: seq<Plan>, under: seq<string>)
    ensures JudgesAll(ps, under, EnsureGatedAll(ps, Innermost(under)))
    decreases ps, 0
  {
    if ps != [] {
      GatedExactly(ps[0], under);
      GatedExactlyAll(ps[1..], under);
      assert ps[0] in ps && forall q :: q in ps <==> q == ps[0] || q in ps[1..];
    }
  }

  lemma {:induction false} GatedExactlyExpr(x: Expr, under: seq<string>)
    ensures JudgesExpr(x, under, EnsureGatedExpr(x, Innermost(under)))
    decreases x, 1
  {
    if x.Exists? {
      GatedExactly(x.subquery, under);
    } else {
      GatedExactlyChildren(x, Children(x), under);
    }
  }

  lemma {:induction false} GatedExactlyChildren(x: Expr, es: seq<Expr>, under: seq<string>)
    requires forall c :: c in es ==> c < x
    ensures JudgesExprs(es, under, EnsureGatedChildren(x, es, Innermost(under)))
    decreases x, 0, |es|
  {
    if es != [] {
      assert es[0] in es && forall c :: c in es <==> c == es[0] || c in es[1..];
      GatedExactlyExpr(es[0], under);
      GatedExactlyChildren(x, es[1..], under);
    }
  }

  lemma {:induction false} GatedExactlyExprs(es: seq<Expr>, under: seq<string>)
    ensures JudgesExprs(es, under, EnsureGatedExprs(es, Innermost(under)))
    decreases es, 0
  {
    if es != [] {
      assert es[0] in es && forall c :: c in es <==> c == es[0] || c in es[1..];
      GatedExactlyExpr(es[0], under);
      GatedExactlyExprs(es[1..], under);
    }
  }

  /** A predicate let through has no subquery, so it is gated anywhere. */
  lemma {:induction false} SafeGated(e: Expr, gate: Option<string>)
    requires CannotFail(e)
    ensures EnsureGatedExpr(e, gate).Ok?
    decreases e
  {
    forall c | c in Children(e)
      ensures EnsureGatedExpr(c, gate).Ok?
    {
      SafeGated(c, gate);
    }
    ChildrenGated(e, Children(e), gate);
    ExprsGated(Children(e), gate);
  }

  lemma AndGated(l: Expr, r: Expr, gate: Option<string>)
    ensures EnsureGatedExpr(Bin(And, l, r), gate).Ok? <==> EnsureGatedExpr(l, gate).Ok? && EnsureGatedExpr(r, gate).Ok?
  {
    var e := Bin(And, l, r);
    ChildrenGated(e, Children(e), gate);
    ExprsGated(Children(e), gate);
    assert l in Children(e) && r in Children(e);
  }

  lemma {:induction false} SplitGated(e: Expr, gate: Option<string>)
    ensures EnsureGatedExpr(e, gate).Ok? <==> forall part :: part in Split(e) ==> EnsureGatedExpr(part, gate).Ok?
  {
    if e.Bin? && e.op == And {
      AndGated(e.left, e.right, gate);
      SplitGated(e.left, gate);
      SplitGated(e.right, gate);
    }
  }

  lemma {:induction false} ConjunctionGated(parts: seq<Expr>, gate: Option<string>)
    requires parts != []
    ensures EnsureGatedExpr(Conjunction(parts), gate).Ok? <==> forall e :: e in parts ==> EnsureGatedExpr(e, gate).Ok?
  {
    var n := |parts| - 1;
    assert parts == parts[..n] + [parts[n]];
    if n > 0 {
      ConjunctionGated(parts[..n], gate);
      AndGated(Conjunction(parts[..n]), parts[n], gate);
      assert forall e :: e in parts <==> e in parts[..n] || e == parts[n];
    } else {
      assert parts == [parts[0]];
    }
  }

  lemma BarrierGated(p: Plan, gate: Option<string>)
    ensures EnsureGated(Barrier(p), gate).Ok? <==> EnsureGated(p, gate).Ok?
  {
    if p.Filter? && p.input.Gate? && Select(Split(p.test), true) != [] {
      var (safe, rest) := (Select(Split(p.test), true), Select(Split(p.test), false));
      var under := Some(p.input.gated);
      SelectIn(Split(p.test), true);
      SelectIn(Split(p.test), false);
      SplitGated(p.test, gate);
      ConjunctionGated(safe, under);
      forall e | e in safe
        ensures EnsureGatedExpr(e, under).Ok? && EnsureGatedExpr(e, gate).Ok?
      {
        SafeGated(e, under);
        SafeGated(e, gate);
      }
      assert forall e :: e in Split(p.test) <==> e in safe || e in rest;
      var gated := Gate(p.input.gated, p.input.compilationHash, Filter(Conjunction(safe), p.input.input));
      assert EnsureGated(gated, gate) == EnsureGated(p.input, gate);
      if rest != [] {
        ConjunctionGated(rest, gate);
        assert EnsureGatedExpr(Conjunction(rest), gate).Ok? <==> EnsureGatedExpr(p.test, gate).Ok?;
        assert Barrier(p) == Filter(Conjunction(rest), gated);
      } else {
        assert EnsureGatedExpr(p.test, gate).Ok?;
        assert Barrier(p) == gated;
      }
    }
  }

  /** The rewritten plan may run exactly when the plan may. */
  lemma {:induction false} RewriteGated(p: Plan, gate: Option<string>)
    ensures EnsureGated(Rewrite(p), gate).Ok? <==> EnsureGated(p, gate).Ok?
    decreases p, 0
  {
    match p
    case Scan(_, _) =>
    case Gate(c, _, input) => RewriteGated(input, Some(c));
    case Filter(e, input) =>
      RewriteGated(input, gate);
      RewriteExprGated(e, gate);
      BarrierGated(Filter(RewriteExpr(e), Rewrite(input)), gate);
    case Project(_, es, input) =>
      RewriteGated(input, gate);
      RewriteExprsGated(es, gate);
    case Node(_, inputs) => RewriteAllGated(inputs, gate);
  }

  lemma {:induction false} RewriteAllGated(ps: seq<Plan>, gate: Option<string>)
    ensures EnsureGatedAll(RewriteAll(ps), gate).Ok? <==> EnsureGatedAll(ps, gate).Ok?
    decreases ps, 0
  {
    if ps != [] {
      RewriteGated(ps[0], gate);
      RewriteAllGated(ps[1..], gate);
      assert RewriteAll(ps)[1..] == RewriteAll(ps[1..]);
    }
  }

  lemma {:induction false} RewriteExprGated(e: Expr, gate: Option<string>)
    ensures EnsureGatedExpr(RewriteExpr(e), gate).Ok? <==> EnsureGatedExpr(e, gate).Ok?
    decreases e, 1
  {
    if e.Exists? {
      RewriteGated(e.subquery, gate);
    } else {
      RewrittenChildren(e);
      ChildrenGated(e, Children(e), gate);
      ChildrenGated(RewriteExpr(e), Children(RewriteExpr(e)), gate);
      RewriteChildrenGated(e, Children(e), gate);
    }
  }

  lemma {:induction false} RewriteChildrenGated(e: Expr, es: seq<Expr>, gate: Option<string>)
    requires forall c :: c in es ==> c < e
    ensures EnsureGatedExprs(RewriteExprs(es), gate).Ok? <==> EnsureGatedExprs(es, gate).Ok?
    decreases e, 0, |es|
  {
    if es != [] {
      assert es[0] in es && forall c :: c in es[1..] ==> c in es;
      RewriteExprGated(es[0], gate);
      RewriteChildrenGated(e, es[1..], gate);
      assert RewriteExprs(es)[1..] == RewriteExprs(es[1..]);
    }
  }

  lemma {:induction false} RewriteExprsGated(es: seq<Expr>, gate: Option<string>)
    ensures EnsureGatedExprs(RewriteExprs(es), gate).Ok? <==> EnsureGatedExprs(es, gate).Ok?
    decreases es, 0
  {
    if es != [] {
      RewriteExprGated(es[0], gate);
      RewriteExprsGated(es[1..], gate);
      assert RewriteExprs(es)[1..] == RewriteExprs(es[1..]);
    }
  }
}
