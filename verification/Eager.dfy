/** The order in which operands are read.

    gen_name hands back a place, so an operator reads its left variable after its right operand has run.  The
    two orders agree for every program in which no right operand writes the variable its left operand denotes. */
module Eager {
  import opened Options
  import Bytes
  import opened Words
  import opened Ast
  import opened Source

  /** The variable an expression's result operand is the place of. */
  function Place(e: Expr): Option<nat> {
    match e
    case Name(x) => Some(x)
    case Assign(x, _) => Some(x)
    case AssignOp(_, x, _) => Some(x)
    case PreInc(_, x) => Some(x)
    case Comma(_, r) => Place(r)
    case UPlus(a) => Place(a)
    case _ => None
  }

  /** The variables evaluation may write. */
  function Writes(e: Expr): set<nat>
    decreases e
  {
    match e
    case Num(_) => {}
    case Bool(_) => {}
    case Name(_) => {}
    case Assign(x, r) => {x} + Writes(r)
    case AssignOp(_, x, r) => {x} + Writes(r)
    case Arith(_, l, r) => Writes(l) + Writes(r)
    case Cmp(_, l, r) => Writes(l) + Writes(r)
    case Conj(l, r) => Writes(l) + Writes(r)
    case Disj(l, r) => Writes(l) + Writes(r)
    case Comma(l, r) => Writes(l) + Writes(r)
    case Cast(a, _) => Writes(a)
    case UPlus(a) => Writes(a)
    case UMinus(a) => Writes(a)
    case LNot(a) => Writes(a)
    case BNot(a) => Writes(a)
    case PreInc(_, x) => {x}
    case PostInc(_, x) => {x}
    case Tern(c, t, f) => Writes(c) + Writes(t) + Writes(f)
    case Call(_, args) => WritesArgs(args)
  }

  function WritesArgs(args: Args): set<nat>
    decreases args
  {
    match args
    case NoArgs => {}
    case Arg(a, rest) => Writes(a) + WritesArgs(rest)
  }

  predicate Apart(place: Option<nat>, r: Expr) {
    place.Some? ==> place.value !in Writes(r)
  }

  /** No right operand writes the variable its left operand denotes. */
  predicate Calm(e: Expr)
    decreases e
  {
    match e
    case Num(_) => true
    case Bool(_) => true
    case Name(_) => true
    case Assign(_, r) => Calm(r)
    case AssignOp(_, x, r) => Calm(r) && x !in Writes(r)
    case Arith(_, l, r) => Calm(l) && Calm(r) && Apart(Place(l), r)
    case Cmp(_, l, r) => Calm(l) && Calm(r) && Apart(Place(l), r)
    case Conj(l, r) => Calm(l) && Calm(r)
    case Disj(l, r) => Calm(l) && Calm(r)
    case Comma(l, r) => Calm(l) && Calm(r)
    case Cast(a, _) => Calm(a)
    case UPlus(a) => Calm(a)
    case UMinus(a) => Calm(a)
    case LNot(a) => Calm(a)
    case BNot(a) => Calm(a)
    case PreInc(_, _) => true
    case PostInc(_, _) => true
    case Tern(c, t, f) => Calm(c) && Calm(t) && Calm(f)
    case Call(_, args) => CalmArgs(args)
  }

  predicate CalmArgs(args: Args)
    decreases args
  {
    args.Arg? ==> Calm(args.head) && CalmArgs(args.tail)
  }

  predicate CalmS(s: Stmt)
    decreases s
  {
    match s
    case Decl(_, init) => init.Some? ==> Calm(init.value)
    case ExprS(e) => Calm(e)
    case Block(b) => CalmAll(b)
    case NoInt(b) => CalmAll(b)
    case If(els) => CalmElse(els)
    case While(c, b) => Calm(c) && CalmAll(b)
    case DoWhile(b, c) => CalmAll(b) && Calm(c)
    case Return(v) => v.Some? ==> Calm(v.value)
    case WLabel(_) => true
  }

  predicate CalmAll(ss: Stmts)
    decreases ss
  {
    ss.Cons? ==> CalmS(ss.head) && CalmAll(ss.tail)
  }

  predicate CalmElse(els: Else)
    decreases els
  {
    match els
    case NoElse => true
    case ElseBlock(b) => CalmAll(b)
    case Elif(c, b, rest) => Calm(c) && CalmAll(b) && CalmElse(rest)
  }

  ghost predicate CalmProgram(p: Program) {
    forall g: nat :: g < |p| ==> CalmAll(p[g].body)
  }

  // ---------- what evaluation leaves alone ----------

  /** Nothing but the variables in `ws` differs. */
  ghost predicate Same(s: St, s': St, ws: set<nat>) {
    forall x :: x !in ws ==> (x in s.vars <==> x in s'.vars) && (x in s.vars ==> s'.vars[x] == s.vars[x])
  }

  lemma SameTrans(a: St, b: St, c: St, ws: set<nat>, vs: set<nat>)
    requires Same(a, b, ws) && Same(b, c, vs)
    ensures Same(a, c, ws + vs)
  {
  }

  lemma SameMore(a: St, b: St, ws: set<nat>, vs: set<nat>)
    requires Same(a, b, ws) && ws <= vs
    ensures Same(a, b, vs)
  {
  }

  /** Evaluation writes no variable but those assigned in the expression, and its result is the expression's
      place or no place at all. */
  ghost predicate Tidy(e: Expr, s: St, out: Outcome<(St, Res)>) {
    out.Ok? ==> Same(s, out.value.0, Writes(e)) && (out.value.1.RVar? ==> Place(e) == Some(out.value.1.x))
  }

  lemma {:induction false} WritesOnly(w: World, f: Func, e: Expr, s: St, sp: nat, fuel: nat)
    ensures Tidy(e, s, Eval(w, f, e, s, sp, fuel))
    decreases e, 1
  {
    hide Same, Value, Operate, Fit, Minus, Scalar, EvalArgs, EvalCall;
    match e
    case Num(_) => SameSelf(s, {});
    case Bool(_) => SameSelf(s, {});
    case Name(_) => SameSelf(s, {});
    case Assign(x, r) =>
      WritesOnly(w, f, r, s, sp, fuel);
      WritesOne(w, f, e, s, sp, fuel, x, Eval(w, f, r, s, sp, fuel), Writes(r));
    case AssignOp(_, x, r) =>
      WritesOnly(w, f, r, s, sp, fuel);
      WritesOne(w, f, e, s, sp, fuel, x, Eval(w, f, r, s, sp, fuel), Writes(r));
    case Arith(_, _, _) => WritesPair(w, f, e, s, sp, fuel);
    case Cmp(_, _, _) => WritesPair(w, f, e, s, sp, fuel);
    case Conj(_, _) => WritesTwo(w, f, e, s, sp, fuel);
    case Disj(_, _) => WritesTwo(w, f, e, s, sp, fuel);
    case Comma(_, _) => WritesTwo(w, f, e, s, sp, fuel);
    case Cast(a, _) => WritesOnly(w, f, a, s, sp, fuel);
    case UPlus(a) => WritesOnly(w, f, a, s, sp, fuel);
    case UMinus(a) => WritesOnly(w, f, a, s, sp, fuel);
    case LNot(a) => WritesOnly(w, f, a, s, sp, fuel);
    case BNot(a) => WritesOnly(w, f, a, s, sp, fuel);
    case PreInc(_, x) =>
      SameSelf(s, {});
      WritesOne(w, f, e, s, sp, fuel, x, Ok((s, RVar(x))), {});
    case PostInc(_, x) =>
      SameSelf(s, {});
      WritesOne(w, f, e, s, sp, fuel, x, Ok((s, RVar(x))), {});
    case Tern(_, _, _) => WritesTern(w, f, e, s, sp, fuel);
    case Call(_, args) =>
      WritesCall(w, f, args, s, sp + 16, fuel);
      CallVars(w, f, e.g, args, s, sp, fuel);
      if Eval(w, f, e, s, sp, fuel).Ok? {
        var q := EvalArgs(w, f, args, s, sp + 16, fuel);
        SameVars(s, q.value.0, Eval(w, f, e, s, sp, fuel).value.0, WritesArgs(args));
      }
  }

  lemma SameSelf(s: St, ws: set<nat>)
    ensures Same(s, s, ws)
  {
  }

  lemma CallVars(w: World, f: Func, g: nat, args: Args, s: St, sp: nat, fuel: nat)
    ensures var o, q := EvalCall(w, f, g, args, s, sp, fuel), EvalArgs(w, f, args, s, sp + 16, fuel);
      o.Ok? ==> q.Ok? && o.value.0.vars == q.value.0.vars && !o.value.1.RVar?
  {
    hide EvalArgs, EvalBody;
  }

  lemma SameVars(s: St, s1: St, s2: St, ws: set<nat>)
    requires Same(s, s1, ws) && s2.vars == s1.vars
    ensures Same(s, s2, ws)
  {
  }

  /** An assignment after its right operand. */
  lemma WritesOne(w: World, f: Func, e: Expr, s: St, sp: nat, fuel: nat, x: nat, r: Outcome<(St, Res)>, ws: set<nat>)
    requires e.Assign? || e.AssignOp? || e.PreInc? || e.PostInc?
    requires x == e.x && (r.Ok? ==> Same(s, r.value.0, ws)) && Writes(e) == {x} + ws
    requires (e.Assign? || e.AssignOp?) ==> r == Eval(w, f, e.rhs, s, sp, fuel)
    requires (e.PreInc? || e.PostInc?) ==> r == Ok((s, RVar(x)))
    ensures Tidy(e, s, Eval(w, f, e, s, sp, fuel))
  {
    hide Value, Operate, Fit, Scalar, Writes;
  }

  lemma {:induction false} WritesPair(w: World, f: Func, e: Expr, s: St, sp: nat, fuel: nat)
    requires e.Arith? || e.Cmp?
    ensures Tidy(e, s, Eval(w, f, e, s, sp, fuel))
    decreases e, 0
  {
    hide Same, Value, Operate;
    WritesOnly(w, f, e.l, s, sp, fuel);
    var l := Eval(w, f, e.l, s, sp, fuel);
    if l.Ok? {
      WritesOnly(w, f, e.r, l.value.0, sp, fuel);
      var r := Eval(w, f, e.r, l.value.0, sp, fuel);
      if r.Ok? {
        SameTrans(s, l.value.0, r.value.0, Writes(e.l), Writes(e.r));
      }
    }
  }

  lemma {:induction false} WritesTwo(w: World, f: Func, e: Expr, s: St, sp: nat, fuel: nat)
    requires e.Conj? || e.Disj? || e.Comma?
    ensures Tidy(e, s, Eval(w, f, e, s, sp, fuel))
    decreases e, 0
  {
    hide Same, Value;
    WritesOnly(w, f, e.l, s, sp, fuel);
    var l := Eval(w, f, e.l, s, sp, fuel);
    if l.Ok? {
      SameMore(s, l.value.0, Writes(e.l), Writes(e));
      WritesOnly(w, f, e.r, l.value.0, sp, fuel);
      var r := Eval(w, f, e.r, l.value.0, sp, fuel);
      if r.Ok? {
        SameTrans(s, l.value.0, r.value.0, Writes(e.l), Writes(e.r));
      }
    }
  }

  lemma {:induction false} WritesTern(w: World, f: Func, e: Expr, s: St, sp: nat, fuel: nat)
    requires e.Tern?
    ensures Tidy(e, s, Eval(w, f, e, s, sp, fuel))
    decreases e, 0
  {
    hide Same, Value;
    WritesOnly(w, f, e.c, s, sp, fuel);
    var c := Eval(w, f, e.c, s, sp, fuel);
    if c.Ok? && Value(f, c.value.0, c.value.1).Ok? {
      var b := if Value(f, c.value.0, c.value.1).value.0 != 0 then e.t else e.f;
      WritesOnly(w, f, b, c.value.0, sp, fuel);
      var r := Eval(w, f, b, c.value.0, sp, fuel);
      if r.Ok? {
        SameTrans(s, c.value.0, r.value.0, Writes(e.c), Writes(b));
        SameMore(s, r.value.0, Writes(e.c) + Writes(b), Writes(e));
      }
    }
  }

  lemma {:induction false} WritesCall(w: World, f: Func, args: Args, s: St, sp: nat, fuel: nat)
    ensures var out := EvalArgs(w, f, args, s, sp, fuel);
      out.Ok? ==> Same(s, out.value.0, WritesArgs(args))
    decreases args, 0
  {
    hide Same, Value;
    match args
    case NoArgs => SameSelf(s, {});
    case Arg(a, rest) =>
      WritesOnly(w, f, a, s, sp, fuel);
      var r := Eval(w, f, a, s, sp, fuel);
      if r.Ok? {
        WritesCall(w, f, rest, r.value.0, sp + 8, fuel);
        var q := EvalArgs(w, f, rest, r.value.0, sp + 8, fuel);
        if q.Ok? {
          SameTrans(s, r.value.0, q.value.0, Writes(a), WritesArgs(rest));
        }
      }
  }

  // ---------- the two orders agree ----------

  function Lazy(w: World): World {
    w.(eager := false)
  }

  /** Reading early can only turn a run into an undefined one. */
  ghost predicate Agree<T>(eager: Outcome<T>, lazy: Outcome<T>) {
    eager.Undef? || eager == lazy
  }

  lemma OperandKept(w: World, f: Func, s: St, a: Res, s': St, ws: set<nat>)
    requires w.eager && Operand(w, f, s, a).Ok? && Same(s, s', ws) && (a.RVar? ==> a.x !in ws)
    ensures Value(f, s', Operand(w, f, s, a).value) == Value(f, s', a)
  {
  }

  lemma {:induction false} AgreeExpr(w: World, f: Func, e: Expr, s: St, sp: nat, fuel: nat)
    requires w.eager && Calm(e) && CalmProgram(w.prog)
    ensures Agree(Eval(w, f, e, s, sp, fuel), Eval(Lazy(w), f, e, s, sp, fuel))
    decreases fuel, e, 2
  {
    hide CalmProgram, Value, DoAssign, DoAssignOp, DoTruth, DoCast, DoMinus, DoNot, DoComplement, DoBump, DoSelect, EvalCall, DoArith, DoCmp;
    match e
    case Num(_) =>
    case Bool(_) =>
    case Name(_) =>
    case Assign(_, r) => AgreeExpr(w, f, r, s, sp, fuel);
    case AssignOp(_, _, _) => AgreeAssignOp(w, f, e, s, sp, fuel);
    case Arith(_, _, _) => AgreePair(w, f, e, s, sp, fuel);
    case Cmp(_, _, _) => AgreePair(w, f, e, s, sp, fuel);
    case Conj(_, _) => AgreeTwo(w, f, e, s, sp, fuel);
    case Disj(_, _) => AgreeTwo(w, f, e, s, sp, fuel);
    case Comma(_, _) => AgreeTwo(w, f, e, s, sp, fuel);
    case Cast(a, _) => AgreeExpr(w, f, a, s, sp, fuel);
    case UPlus(a) => AgreeExpr(w, f, a, s, sp, fuel);
    case UMinus(a) => AgreeExpr(w, f, a, s, sp, fuel);
    case LNot(a) => AgreeExpr(w, f, a, s, sp, fuel);
    case BNot(a) => AgreeExpr(w, f, a, s, sp, fuel);
    case PreInc(_, _) =>
    case PostInc(_, _) =>
    case Tern(_, _, _) => AgreeTern(w, f, e, s, sp, fuel);
    case Call(g, args) => AgreeCall(w, f, g, args, s, sp, fuel);
  }

  lemma AgreeAssignOp(w: World, f: Func, e: Expr, s: St, sp: nat, fuel: nat)
    requires w.eager && Calm(e) && CalmProgram(w.prog) && e.AssignOp?
    ensures Agree(Eval(w, f, e, s, sp, fuel), Eval(Lazy(w), f, e, s, sp, fuel))
    decreases fuel, e, 1
  {
    hide CalmProgram, Value, Same, Operate;
    AgreeExpr(w, f, e.rhs, s, sp, fuel);
    WritesOnly(w, f, e.rhs, s, sp, fuel);
    var r := Eval(w, f, e.rhs, s, sp, fuel);
    if r.Ok? && Operand(w, f, s, RVar(e.x)).Ok? {
      OperandKept(w, f, s, RVar(e.x), r.value.0, Writes(e.rhs));
    }
  }

  lemma AgreePair(w: World, f: Func, e: Expr, s: St, sp: nat, fuel: nat)
    requires w.eager && Calm(e) && CalmProgram(w.prog) && (e.Arith? || e.Cmp?)
    ensures Agree(Eval(w, f, e, s, sp, fuel), Eval(Lazy(w), f, e, s, sp, fuel))
    decreases fuel, e, 1
  {
    hide CalmProgram, Value, Same, Operate, Operand, SrcCmp;
    AgreeExpr(w, f, e.l, s, sp, fuel);
    WritesOnly(w, f, e.l, s, sp, fuel);
    var l := Eval(w, f, e.l, s, sp, fuel);
    if l.Ok? && Operand(w, f, l.value.0, l.value.1).Ok? {
      var (s1, a) := l.value;
      AgreeExpr(w, f, e.r, s1, sp, fuel);
      WritesOnly(w, f, e.r, s1, sp, fuel);
      var r := Eval(w, f, e.r, s1, sp, fuel);
      if r.Ok? {
        OperandKept(w, f, s1, a, r.value.0, Writes(e.r));
      }
    }
  }

  lemma AgreeTwo(w: World, f: Func, e: Expr, s: St, sp: nat, fuel: nat)
    requires w.eager && Calm(e) && CalmProgram(w.prog) && (e.Conj? || e.Disj? || e.Comma?)
    ensures Agree(Eval(w, f, e, s, sp, fuel), Eval(Lazy(w), f, e, s, sp, fuel))
    decreases fuel, e, 1
  {
    hide CalmProgram, Value, DoTruth;
    AgreeExpr(w, f, e.l, s, sp, fuel);
    var l := Eval(w, f, e.l, s, sp, fuel);
    if l.Ok? {
      AgreeExpr(w, f, e.r, l.value.0, sp, fuel);
    }
  }

  lemma AgreeTern(w: World, f: Func, e: Expr, s: St, sp: nat, fuel: nat)
    requires w.eager && Calm(e) && CalmProgram(w.prog) && e.Tern?
    ensures Agree(Eval(w, f, e, s, sp, fuel), Eval(Lazy(w), f, e, s, sp, fuel))
    decreases fuel, e, 1
  {
    hide CalmProgram, Value, DoSelect;
    AgreeExpr(w, f, e.c, s, sp, fuel);
    var c := Eval(w, f, e.c, s, sp, fuel);
    if c.Ok? {
      AgreeExpr(w, f, e.t, c.value.0, sp, fuel);
      AgreeExpr(w, f, e.f, c.value.0, sp, fuel);
    }
  }

  lemma AgreeCall(w: World, f: Func, g: nat, args: Args, s: St, sp: nat, fuel: nat)
    requires w.eager && CalmArgs(args) && CalmProgram(w.prog)
    ensures Agree(EvalCall(w, f, g, args, s, sp, fuel), EvalCall(Lazy(w), f, g, args, s, sp, fuel))
    decreases fuel, args, 1
  {
    hide CalmProgram, EvalArgs, EvalBody;
    if g < |w.prog| && g < |w.locals| && sp + 16 <= w.cap {
      AgreeArgs(w, f, args, s, sp + 16, fuel);
      var q := EvalArgs(w, f, args, s, sp + 16, fuel);
      if q.Ok? && fuel > 0 {
        AgreeBody(w, g, q.value.1, q.value.0.noint, q.value.0.passed, q.value.2, fuel - 1);
      }
    }
  }

  lemma AgreeArgs(w: World, f: Func, args: Args, s: St, sp: nat, fuel: nat)
    requires w.eager && CalmArgs(args) && CalmProgram(w.prog)
    ensures Agree(EvalArgs(w, f, args, s, sp, fuel), EvalArgs(Lazy(w), f, args, s, sp, fuel))
    decreases fuel, args, 0
  {
    hide CalmProgram, Value, Eval;
    if args.Arg? {
      AgreeExpr(w, f, args.head, s, sp, fuel);
      var r := Eval(w, f, args.head, s, sp, fuel);
      if r.Ok? {
        AgreeArgs(w, f, args.tail, r.value.0, sp + 8, fuel);
      }
    }
  }

  lemma AgreeBody(w: World, g: nat, vals: seq<int>, noint: Flag, passed: Label, sp: nat, fuel: nat)
    requires w.eager && CalmProgram(w.prog) && g < |w.prog| && g < |w.locals|
    ensures Agree(EvalBody(w, g, vals, noint, passed, sp, fuel), EvalBody(Lazy(w), g, vals, noint, passed, sp, fuel))
    decreases fuel, w.prog[g].body, 2
  {
    hide ExecAll;
    AgreeAll(w, w.prog[g], w.prog[g].body, St(Bind(vals), noint, passed), sp + w.locals[g], fuel);
  }

  lemma AgreeStmt(w: World, f: Func, st: Stmt, s: St, sp: nat, fuel: nat)
    requires w.eager && CalmProgram(w.prog) && CalmS(st)
    ensures Agree(Exec(w, f, st, s, sp, fuel), Exec(Lazy(w), f, st, s, sp, fuel))
    decreases fuel, st, 1
  {
    hide CalmProgram, Value, Eval, ExecAll, ExecElse, InitAll;
    match st
    case Decl(_, init) =>
      if init.Some? {
        AgreeExpr(w, f, init.value, s, sp, fuel);
      }
    case ExprS(e) => AgreeExpr(w, f, e, s, sp, fuel);
    case Block(b) => AgreeAll(w, f, b, s, sp, fuel);
    case NoInt(b) => AgreeAll(w, f, b, s.(noint := s.noint.Raised()), sp, fuel);
    case If(els) => AgreeElse(w, f, els, s, sp, fuel);
    case While(_, _) => AgreeLoop(w, f, st, s, sp, fuel);
    case DoWhile(_, _) => AgreeLoop(w, f, st, s, sp, fuel);
    case Return(v) =>
      if v.Some? {
        AgreeExpr(w, f, v.value, s, sp, fuel);
      }
    case WLabel(_) =>
  }

  lemma AgreeLoop(w: World, f: Func, st: Stmt, s: St, sp: nat, fuel: nat)
    requires w.eager && CalmProgram(w.prog) && CalmS(st) && (st.While? || st.DoWhile?)
    ensures Agree(Exec(w, f, st, s, sp, fuel), Exec(Lazy(w), f, st, s, sp, fuel))
    decreases fuel, st, 0
  {
    hide CalmProgram, Value, Eval, ExecAll;
    if st.While? {
      AgreeExpr(w, f, st.c, s, sp, fuel);
      var r := Eval(w, f, st.c, s, sp, fuel);
      if r.Ok? {
        AgreeAll(w, f, st.body, r.value.0, sp, fuel);
        var q := ExecAll(w, f, st.body, r.value.0, sp, fuel);
        if q.Ok? && fuel > 0 {
          AgreeStmt(w, f, st, q.value.0, sp, fuel - 1);
        }
      }
    } else {
      AgreeAll(w, f, st.body, s, sp, fuel);
      var q := ExecAll(w, f, st.body, s, sp, fuel);
      if q.Ok? {
        AgreeExpr(w, f, st.c, q.value.0, sp, fuel);
        var r := Eval(w, f, st.c, q.value.0, sp, fuel);
        if r.Ok? && fuel > 0 {
          AgreeStmt(w, f, st, r.value.0, sp, fuel - 1);
        }
      }
    }
  }

  lemma AgreeAll(w: World, f: Func, ss: Stmts, s: St, sp: nat, fuel: nat)
    requires w.eager && CalmProgram(w.prog) && CalmAll(ss)
    ensures Agree(ExecAll(w, f, ss, s, sp, fuel), ExecAll(Lazy(w), f, ss, s, sp, fuel))
    decreases fuel, ss, 1
  {
    hide CalmProgram, Exec;
    if ss.Cons? {
      AgreeStmt(w, f, ss.head, s, sp, fuel);
      var q := Exec(w, f, ss.head, s, sp, fuel);
      if q.Ok? {
        AgreeAll(w, f, ss.tail, q.value.0, sp, fuel);
      }
    }
  }

  lemma AgreeElse(w: World, f: Func, els: Else, s: St, sp: nat, fuel: nat)
    requires w.eager && CalmProgram(w.prog) && CalmElse(els)
    ensures Agree(ExecElse(w, f, els, s, sp, fuel), ExecElse(Lazy(w), f, els, s, sp, fuel))
    decreases fuel, els, 1
  {
    hide CalmProgram, Value, Eval, ExecAll;
    match els
    case NoElse =>
    case ElseBlock(b) => AgreeAll(w, f, b, s, sp, fuel);
    case Elif(c, b, rest) =>
      AgreeExpr(w, f, c, s, sp, fuel);
      var r := Eval(w, f, c, s, sp, fuel);
      if r.Ok? {
        AgreeAll(w, f, b, r.value.0, sp, fuel);
        AgreeElse(w, f, rest, r.value.0, sp, fuel);
      }
  }

  /** Without a write to a place that is waiting to be read, the two orders give every call the same meaning:
      a program that is defined when operands are read left to right behaves the same when they are read late. */
  lemma OrderDoesNotMatter(w: World, g: nat, vals: seq<int>, noint: Flag, passed: Label, sp: nat, fuel: nat)
    requires w.eager && CalmProgram(w.prog) && g < |w.prog| && g < |w.locals|
    requires !EvalBody(w, g, vals, noint, passed, sp, fuel).Undef?
    ensures EvalBody(Lazy(w), g, vals, noint, passed, sp, fuel) == EvalBody(w, g, vals, noint, passed, sp, fuel)
  {
    hide EvalBody, CalmProgram;
    AgreeBody(w, g, vals, noint, passed, sp, fuel);
  }

  /** With one it does matter: for x == 1, `x + (x = 2)` is 3 read left to right and 4 in the generated code. */
  lemma OrderMatters(w: World, f: Func, s: St, sp: nat)
    requires w.eager && |f.vars| == 1 && f.vars[0] == VarDecl(Some(U8), 1, 1, false)
    requires s.vars == map[0 := 1]
    ensures var e := Arith(Add, Name(0), Assign(0, Num(2)));
      && !Calm(e)
      && Eval(w, f, e, s, sp, 0).Ok? && Eval(w, f, e, s, sp, 0).value.1 == RVal(3, U8)
      && Eval(Lazy(w), f, e, s, sp, 0).Ok? && Eval(Lazy(w), f, e, s, sp, 0).value.1 == RVal(4, U8)
  {
    assert Scalar(f, 0);
    var two := Assign(0, Num(2));
    var s2 := s.(vars := s.vars[0 := 2]);
    SmallWords();
    assert Eval(w, f, Num(2), s, sp, 0) == Ok((s, RConst(2, U8)));
    assert Eval(w, f, two, s, sp, 0) == Ok((s2, RVar(0)));
    assert Eval(Lazy(w), f, two, s, sp, 0) == Ok((s2, RVar(0)));
    var e := Arith(Add, Name(0), two);
    assert Operand(w, f, s, RVar(0)) == Ok(RVal(1, U8));
    assert EvalPair(w, f, e, s, sp, 0) == Ok((s2, RVal(1, U8), RVar(0)));
    assert EvalPair(Lazy(w), f, e, s, sp, 0) == Ok((s2, RVar(0), RVar(0)));
    assert Fit(U8, 3) == Some(3) && Fit(U8, 4) == Some(4);
  }

  lemma SmallWords()
    ensures U8.Holds(1) && U8.Holds(2) && U8.Holds(3) && U8.Holds(4) && !U8.Signed()
    ensures Fit(U8, 3) == Some(3) && Fit(U8, 4) == Some(4)
  {
    Bytes.Pow256One();
  }
}
