/** What a call computes does not depend on where on the stack it runs, on the noint flag, or on the label its
    caller passed last: contexts can only make it overflow the stack. */
module Contexts {
  import opened Options
  import opened Words
  import opened Ast
  import opened Source

  /** The same outcome, as far as values go. */
  ghost predicate Alike(a: Outcome<(St, Res)>, b: Outcome<(St, Res)>) {
    || a.Overflow? || b.Overflow? || (a.Undef? && b.Undef?) || (a.Timeout? && b.Timeout?)
    || (a.Ok? && b.Ok? && a.value.0.vars == b.value.0.vars && a.value.1 == b.value.1)
  }

  ghost predicate AlikeArgs(a: Outcome<(St, seq<int>, nat)>, b: Outcome<(St, seq<int>, nat)>) {
    || a.Overflow? || b.Overflow? || (a.Undef? && b.Undef?) || (a.Timeout? && b.Timeout?)
    || (a.Ok? && b.Ok? && a.value.0.vars == b.value.0.vars && a.value.1 == b.value.1)
  }

  ghost predicate AlikeFlow(a: Outcome<(St, Flow)>, b: Outcome<(St, Flow)>) {
    || a.Overflow? || b.Overflow? || (a.Undef? && b.Undef?) || (a.Timeout? && b.Timeout?)
    || (a.Ok? && b.Ok? && a.value.0.vars == b.value.0.vars && a.value.1 == b.value.1)
  }

  ghost predicate AlikeRet(a: Outcome<Ret>, b: Outcome<Ret>) {
    || a.Overflow? || b.Overflow? || (a.Undef? && b.Undef?) || (a.Timeout? && b.Timeout?)
    || (a.Ok? && b.Ok? && a.value.v == b.value.v)
  }

  lemma SameValue(f: Func, s: St, t: St, r: Res)
    requires s.vars == t.vars
    ensures Value(f, s, r) == Value(f, t, r)
  {
  }

  // The operators see nothing of a state but its variables.

  lemma SameOperand(w: World, f: Func, s: St, t: St, a: Res)
    requires s.vars == t.vars
    ensures Operand(w, f, s, a) == Operand(w, f, t, a)
  {
    SameValue(f, s, t, a);
    hide Value;
  }

  lemma SameUnary(f: Func, s: St, t: St, a: Res)
    requires s.vars == t.vars
    ensures Alike(DoTruth(f, s, a), DoTruth(f, t, a)) && Alike(DoMinus(f, s, a), DoMinus(f, t, a))
    ensures Alike(DoNot(f, s, a), DoNot(f, t, a)) && Alike(DoComplement(f, s, a), DoComplement(f, t, a))
    ensures Alike(DoSelect(f, s, a), DoSelect(f, t, a))
    ensures forall to :: Alike(DoCast(f, to, s, a), DoCast(f, to, t, a))
  {
    SameValue(f, s, t, a);
    ValueHolds(f, s, a);
    hide Value, Minus, SrcCast;
  }

  lemma ValueHolds(f: Func, s: St, a: Res)
    ensures Value(f, s, a).Ok? ==> Value(f, s, a).value.1.Holds(Value(f, s, a).value.0)
  {
  }

  lemma SameBinary(f: Func, s: St, t: St, a: Res, b: Res)
    requires s.vars == t.vars
    ensures forall op :: Alike(DoArith(f, op, s, a, b), DoArith(f, op, t, a, b))
    ensures forall op :: Alike(DoCmp(f, op, s, a, b), DoCmp(f, op, t, a, b))
  {
    SameValue(f, s, t, a);
    SameValue(f, s, t, b);
    ValueHolds(f, s, a);
    ValueHolds(f, s, b);
    hide Value, Alike;
    forall op ensures Alike(DoArith(f, op, s, a, b), DoArith(f, op, t, a, b)) {
      AlikeArith(f, op, s, t, a, b);
    }
    forall op ensures Alike(DoCmp(f, op, s, a, b), DoCmp(f, op, t, a, b)) {
      AlikeCmp(f, op, s, t, a, b);
    }
  }

  lemma AlikeArith(f: Func, op: ArithOp, s: St, t: St, a: Res, b: Res)
    requires Value(f, s, a) == Value(f, t, a) && Value(f, s, b) == Value(f, t, b) && s.vars == t.vars
    ensures Alike(DoArith(f, op, s, a, b), DoArith(f, op, t, a, b))
  {
    ValueHolds(f, s, a);
    ValueHolds(f, s, b);
    hide Value, Operate;
  }

  lemma AlikeCmp(f: Func, op: CmpOp, s: St, t: St, a: Res, b: Res)
    requires Value(f, s, a) == Value(f, t, a) && Value(f, s, b) == Value(f, t, b) && s.vars == t.vars
    ensures Alike(DoCmp(f, op, s, a, b), DoCmp(f, op, t, a, b))
  {
    hide Value, SrcCmp;
  }

  lemma SameAssigns(f: Func, s: St, t: St, a: Res, b: Res)
    requires s.vars == t.vars
    ensures forall x :: Alike(DoAssign(f, x, s, b), DoAssign(f, x, t, b))
    ensures forall op, x :: Alike(DoAssignOp(f, op, x, s, a, b), DoAssignOp(f, op, x, t, a, b))
  {
    SameValue(f, s, t, a);
    SameValue(f, s, t, b);
    hide Value, Alike;
    forall x ensures Alike(DoAssign(f, x, s, b), DoAssign(f, x, t, b)) {
      AlikeAssign(f, x, s, t, b);
    }
    forall op, x ensures Alike(DoAssignOp(f, op, x, s, a, b), DoAssignOp(f, op, x, t, a, b)) {
      AlikeAssignOp(f, op, x, s, t, a, b);
    }
  }

  lemma AlikeAssign(f: Func, x: nat, s: St, t: St, b: Res)
    requires Value(f, s, b) == Value(f, t, b) && s.vars == t.vars
    ensures Alike(DoAssign(f, x, s, b), DoAssign(f, x, t, b))
  {
    hide Value, Scalar;
  }

  lemma AlikeAssignOp(f: Func, op: ArithOp, x: nat, s: St, t: St, a: Res, b: Res)
    requires Value(f, s, a) == Value(f, t, a) && Value(f, s, b) == Value(f, t, b) && s.vars == t.vars
    ensures Alike(DoAssignOp(f, op, x, s, a, b), DoAssignOp(f, op, x, t, a, b))
  {
    ValueHolds(f, s, a);
    ValueHolds(f, s, b);
    hide Value, Operate;
  }

  lemma SameBump(f: Func, s: St, t: St, up: bool, x: nat, post: bool)
    requires s.vars == t.vars
    ensures Alike(DoBump(f, up, x, post, s), DoBump(f, up, x, post, t))
  {
    SameValue(f, s, t, RVar(x));
    hide Value, Fit;
  }

  lemma {:induction false} SameExpr(w: World, f: Func, e: Expr, s: St, t: St, sp: nat, tp: nat, fuel: nat)
    requires s.vars == t.vars
    ensures Alike(Eval(w, f, e, s, sp, fuel), Eval(w, f, e, t, tp, fuel))
    decreases fuel, e, 2
  {
    hide DoAssign, DoAssignOp, DoTruth, DoCast, DoMinus, DoNot, DoComplement, DoBump, DoSelect, EvalCall, DoArith, DoCmp, Value, Operand, EvalPair;
    match e
    case Num(_) =>
    case Bool(_) =>
    case Name(_) =>
    case Assign(_, _) => SameStores(w, f, e, s, t, sp, tp, fuel);
    case AssignOp(_, _, _) => SameStores(w, f, e, s, t, sp, tp, fuel);
    case PreInc(_, _) => SameStores(w, f, e, s, t, sp, tp, fuel);
    case PostInc(_, _) => SameStores(w, f, e, s, t, sp, tp, fuel);
    case Arith(_, _, _) => SamePair(w, f, e, s, t, sp, tp, fuel);
    case Cmp(_, _, _) => SamePair(w, f, e, s, t, sp, tp, fuel);
    case Conj(_, _) => SameTwo(w, f, e, s, t, sp, tp, fuel);
    case Disj(_, _) => SameTwo(w, f, e, s, t, sp, tp, fuel);
    case Comma(_, _) => SameTwo(w, f, e, s, t, sp, tp, fuel);
    case UPlus(a) => SameExpr(w, f, a, s, t, sp, tp, fuel);
    case Cast(_, _) => SameConversions(w, f, e, s, t, sp, tp, fuel);
    case UMinus(_) => SameConversions(w, f, e, s, t, sp, tp, fuel);
    case LNot(_) => SameConversions(w, f, e, s, t, sp, tp, fuel);
    case BNot(_) => SameConversions(w, f, e, s, t, sp, tp, fuel);
    case Tern(_, _, _) => SameTern(w, f, e, s, t, sp, tp, fuel);
    case Call(g, args) => SameCall(w, f, g, args, s, t, sp, tp, fuel);
  }

  lemma {:induction false} SameStores(w: World, f: Func, e: Expr, s: St, t: St, sp: nat, tp: nat, fuel: nat)
    requires s.vars == t.vars && (e.Assign? || e.AssignOp? || e.PreInc? || e.PostInc?)
    ensures Alike(Eval(w, f, e, s, sp, fuel), Eval(w, f, e, t, tp, fuel))
    decreases fuel, e, 1
  {
    hide DoAssign, DoAssignOp, DoTruth, DoCast, DoMinus, DoNot, DoComplement, DoBump, DoSelect, EvalCall, DoArith, DoCmp, Value, Operand, EvalPair;
    if e.Assign? {
      SameAfter(w, f, e.rhs, s, t, sp, tp, fuel, RVoid);
    } else if e.AssignOp? {
      SameOperand(w, f, s, t, RVar(e.x));
      if Operand(w, f, s, RVar(e.x)).Ok? {
        SameAfter(w, f, e.rhs, s, t, sp, tp, fuel, Operand(w, f, s, RVar(e.x)).value);
      }
    } else {
      SameBump(f, s, t, e.up, e.x, e.PostInc?);
    }
  }

  lemma {:induction false} SameConversions(w: World, f: Func, e: Expr, s: St, t: St, sp: nat, tp: nat, fuel: nat)
    requires s.vars == t.vars && (e.Cast? || e.UMinus? || e.LNot? || e.BNot?)
    ensures Alike(Eval(w, f, e, s, sp, fuel), Eval(w, f, e, t, tp, fuel))
    decreases fuel, e, 1
  {
    hide DoAssign, DoAssignOp, DoTruth, DoCast, DoMinus, DoNot, DoComplement, DoBump, DoSelect, EvalCall, DoArith, DoCmp, Value, Operand, EvalPair;
    SameAfter(w, f, e.e, s, t, sp, tp, fuel, RVoid);
  }

  /** A part, and what any operator makes of its result. */
  lemma {:induction false} SameAfter(w: World, f: Func, e: Expr, s: St, t: St, sp: nat, tp: nat, fuel: nat, a: Res)
    requires s.vars == t.vars
    ensures Alike(Eval(w, f, e, s, sp, fuel), Eval(w, f, e, t, tp, fuel))
    ensures var p, q := Eval(w, f, e, s, sp, fuel), Eval(w, f, e, t, tp, fuel);
      p.Ok? && q.Ok? ==>
        var s1, r, t1 := p.value.0, p.value.1, q.value.0;
        && (forall x :: Alike(DoAssign(f, x, s1, r), DoAssign(f, x, t1, r)))
        && (forall op, x :: Alike(DoAssignOp(f, op, x, s1, a, r), DoAssignOp(f, op, x, t1, a, r)))
        && Alike(DoMinus(f, s1, r), DoMinus(f, t1, r)) && Alike(DoNot(f, s1, r), DoNot(f, t1, r))
        && Alike(DoComplement(f, s1, r), DoComplement(f, t1, r)) && (forall to :: Alike(DoCast(f, to, s1, r), DoCast(f, to, t1, r)))
    decreases fuel, e, 3
  {
    hide *;
    SameExpr(w, f, e, s, t, sp, tp, fuel);
    var p, q := Eval(w, f, e, s, sp, fuel), Eval(w, f, e, t, tp, fuel);
    if p.Ok? && q.Ok? {
      AlikeOk(p, q);
      SameUnary(f, p.value.0, q.value.0, p.value.1);
      SameAssigns(f, p.value.0, q.value.0, a, p.value.1);
    }
  }

  lemma AlikeOk(a: Outcome<(St, Res)>, b: Outcome<(St, Res)>)
    requires Alike(a, b) && a.Ok? && b.Ok?
    ensures a.value.0.vars == b.value.0.vars && a.value.1 == b.value.1
  {
  }

  lemma {:induction false} SamePair(w: World, f: Func, e: Expr, s: St, t: St, sp: nat, tp: nat, fuel: nat)
    requires s.vars == t.vars && (e.Arith? || e.Cmp?)
    ensures Alike(Eval(w, f, e, s, sp, fuel), Eval(w, f, e, t, tp, fuel))
    decreases fuel, e, 1
  {
    hide Operate, Operand, Value, DoArith, DoCmp;
    SameExpr(w, f, e.l, s, t, sp, tp, fuel);
    var p, q := Eval(w, f, e.l, s, sp, fuel), Eval(w, f, e.l, t, tp, fuel);
    if p.Ok? && q.Ok? {
      var s1, a, t1 := p.value.0, p.value.1, q.value.0;
      SameOperand(w, f, s1, t1, a);
      SameExpr(w, f, e.r, s1, t1, sp, tp, fuel);
      var p2, q2 := Eval(w, f, e.r, s1, sp, fuel), Eval(w, f, e.r, t1, tp, fuel);
      if p2.Ok? && q2.Ok? && Operand(w, f, s1, a).Ok? {
        SameBinary(f, p2.value.0, q2.value.0, Operand(w, f, s1, a).value, p2.value.1);
      }
    }
  }

  lemma {:induction false} SameTwo(w: World, f: Func, e: Expr, s: St, t: St, sp: nat, tp: nat, fuel: nat)
    requires s.vars == t.vars && (e.Conj? || e.Disj? || e.Comma?)
    ensures Alike(Eval(w, f, e, s, sp, fuel), Eval(w, f, e, t, tp, fuel))
    decreases fuel, e, 1
  {
    hide DoAssign, DoAssignOp, DoTruth, DoCast, DoMinus, DoNot, DoComplement, DoBump, DoSelect, EvalCall, DoArith, DoCmp, Value, Operand, EvalPair;
    SameExpr(w, f, e.l, s, t, sp, tp, fuel);
    var p, q := Eval(w, f, e.l, s, sp, fuel), Eval(w, f, e.l, t, tp, fuel);
    if p.Ok? && q.Ok? {
      SameValue(f, p.value.0, q.value.0, p.value.1);
      SameExpr(w, f, e.r, p.value.0, q.value.0, sp, tp, fuel);
      var p2, q2 := Eval(w, f, e.r, p.value.0, sp, fuel), Eval(w, f, e.r, q.value.0, tp, fuel);
      if p2.Ok? && q2.Ok? {
        SameUnary(f, p2.value.0, q2.value.0, p2.value.1);
      }
    }
  }

  lemma {:induction false} SameTern(w: World, f: Func, e: Expr, s: St, t: St, sp: nat, tp: nat, fuel: nat)
    requires s.vars == t.vars && e.Tern?
    ensures Alike(Eval(w, f, e, s, sp, fuel), Eval(w, f, e, t, tp, fuel))
    decreases fuel, e, 1
  {
    hide Value, DoSelect;
    SameExpr(w, f, e.c, s, t, sp, tp, fuel);
    var p, q := Eval(w, f, e.c, s, sp, fuel), Eval(w, f, e.c, t, tp, fuel);
    if p.Ok? && q.Ok? {
      SameValue(f, p.value.0, q.value.0, p.value.1);
      if Value(f, p.value.0, p.value.1).Ok? {
        var b := if Value(f, p.value.0, p.value.1).value.0 != 0 then e.t else e.f;
        SameExpr(w, f, b, p.value.0, q.value.0, sp, tp, fuel);
        var p2, q2 := Eval(w, f, b, p.value.0, sp, fuel), Eval(w, f, b, q.value.0, tp, fuel);
        if p2.Ok? && q2.Ok? {
          SameUnary(f, p2.value.0, q2.value.0, p2.value.1);
        }
      }
    }
  }

  lemma {:induction false} SameCall(w: World, f: Func, g: nat, args: Args, s: St, t: St, sp: nat, tp: nat, fuel: nat)
    requires s.vars == t.vars
    ensures Alike(EvalCall(w, f, g, args, s, sp, fuel), EvalCall(w, f, g, args, t, tp, fuel))
    decreases fuel, args, 1
  {
    hide EvalArgs, EvalBody;
    if g < |w.prog| && g < |w.locals| && sp + 16 <= w.cap && tp + 16 <= w.cap {
      SameArgs(w, f, args, s, t, sp + 16, tp + 16, fuel);
      var p, q := EvalArgs(w, f, args, s, sp + 16, fuel), EvalArgs(w, f, args, t, tp + 16, fuel);
      if p.Ok? && q.Ok? && fuel > 0 {
        SameBody(w, g, p.value.1, p.value.0.noint, q.value.0.noint, p.value.0.passed, q.value.0.passed,
                 p.value.2, q.value.2, fuel - 1);
      }
    }
  }

  lemma {:induction false} SameArgs(w: World, f: Func, args: Args, s: St, t: St, sp: nat, tp: nat, fuel: nat)
    requires s.vars == t.vars
    ensures AlikeArgs(EvalArgs(w, f, args, s, sp, fuel), EvalArgs(w, f, args, t, tp, fuel))
    decreases fuel, args, 0
  {
    hide Value, Eval;
    if args.Arg? {
      SameExpr(w, f, args.head, s, t, sp, tp, fuel);
      var p, q := Eval(w, f, args.head, s, sp, fuel), Eval(w, f, args.head, t, tp, fuel);
      if p.Ok? && q.Ok? {
        SameValue(f, p.value.0, q.value.0, p.value.1);
        SameArgs(w, f, args.tail, p.value.0, q.value.0, sp + 8, tp + 8, fuel);
      }
    }
  }

  /** A function applied to values returns the same wherever and whenever it is called, or overflows the stack. */
  lemma {:induction false} SameBody(w: World, g: nat, vals: seq<int>, n1: Flag, n2: Flag, p1: Label, p2: Label,
                                    sp: nat, tp: nat, fuel: nat)
    requires g < |w.prog| && g < |w.locals|
    ensures AlikeRet(EvalBody(w, g, vals, n1, p1, sp, fuel), EvalBody(w, g, vals, n2, p2, tp, fuel))
    decreases fuel, w.prog[g].body, 2
  {
    hide ExecAll;
    SameAll(w, w.prog[g], w.prog[g].body, St(Bind(vals), n1, p1), St(Bind(vals), n2, p2),
            sp + w.locals[g], tp + w.locals[g], fuel);
  }

  lemma {:induction false} SameInit(f: Func, names: seq<nat>, s: St, t: St, r: Res)
    requires s.vars == t.vars
    ensures var a, b := InitAll(f, names, s, r), InitAll(f, names, t, r);
      (a.Undef? && b.Undef?) || (a.Ok? && b.Ok? && a.value.vars == b.value.vars)
    decreases |names|
  {
    hide Value;
    if names != [] {
      SameValue(f, s, t, r);
      InitOutcome(f, names[0], s, t, r);
      if Value(f, s, r).Ok? && Store(f, s, names[0], Value(f, s, r).value).Ok? {
        SameInit(f, names[1..], Store(f, s, names[0], Value(f, s, r).value).value,
                 Store(f, t, names[0], Value(f, s, r).value).value, r);
      }
    }
  }

  lemma InitOutcome(f: Func, x: nat, s: St, t: St, r: Res)
    requires s.vars == t.vars
    ensures Value(f, s, r).Ok? || Value(f, s, r).Undef?
    ensures Value(f, s, r).Ok? ==>
      var a, b := Store(f, s, x, Value(f, s, r).value), Store(f, t, x, Value(f, s, r).value);
      (a.Undef? && b.Undef?) || (a.Ok? && b.Ok? && a.value.vars == b.value.vars)
  {
  }

  lemma {:induction false} SameStmt(w: World, f: Func, st: Stmt, s: St, t: St, sp: nat, tp: nat, fuel: nat)
    requires s.vars == t.vars
    ensures AlikeFlow(Exec(w, f, st, s, sp, fuel), Exec(w, f, st, t, tp, fuel))
    decreases fuel, st, 1
  {
    hide Value, Eval, ExecAll, ExecElse, InitAll;
    match st
    case Decl(names, init) =>
      if init.Some? {
        SameExpr(w, f, init.value, s, t, sp, tp, fuel);
        var p, q := Eval(w, f, init.value, s, sp, fuel), Eval(w, f, init.value, t, tp, fuel);
        if p.Ok? && q.Ok? {
          SameInit(f, names, p.value.0, q.value.0, p.value.1);
        }
      }
    case ExprS(e) => SameExpr(w, f, e, s, t, sp, tp, fuel);
    case Block(b) => SameAll(w, f, b, s, t, sp, tp, fuel);
    case NoInt(b) => SameAll(w, f, b, s.(noint := s.noint.Raised()), t.(noint := t.noint.Raised()), sp, tp, fuel);
    case If(els) => SameElse(w, f, els, s, t, sp, tp, fuel);
    case While(_, _) => SameWhile(w, f, st, s, t, sp, tp, fuel);
    case DoWhile(_, _) => SameDoWhile(w, f, st, s, t, sp, tp, fuel);
    case Return(v) =>
      if v.Some? {
        SameExpr(w, f, v.value, s, t, sp, tp, fuel);
        var p, q := Eval(w, f, v.value, s, sp, fuel), Eval(w, f, v.value, t, tp, fuel);
        if p.Ok? && q.Ok? {
          SameValue(f, p.value.0, q.value.0, p.value.1);
        }
      }
    case WLabel(_) =>
  }

  lemma {:induction false} SameWhile(w: World, f: Func, st: Stmt, s: St, t: St, sp: nat, tp: nat, fuel: nat)
    requires s.vars == t.vars && st.While?
    ensures AlikeFlow(Exec(w, f, st, s, sp, fuel), Exec(w, f, st, t, tp, fuel))
    decreases fuel, st, 0
  {
    hide Value, Eval, ExecAll;
    SameExpr(w, f, st.c, s, t, sp, tp, fuel);
    var p, q := Eval(w, f, st.c, s, sp, fuel), Eval(w, f, st.c, t, tp, fuel);
    if p.Ok? && q.Ok? {
      SameValue(f, p.value.0, q.value.0, p.value.1);
      SameAll(w, f, st.body, p.value.0, q.value.0, sp, tp, fuel);
      var p2, q2 := ExecAll(w, f, st.body, p.value.0, sp, fuel), ExecAll(w, f, st.body, q.value.0, tp, fuel);
      if p2.Ok? && q2.Ok? && fuel > 0 {
        SameStmt(w, f, st, p2.value.0, q2.value.0, sp, tp, fuel - 1);
      }
    }
  }

  lemma {:induction false} SameDoWhile(w: World, f: Func, st: Stmt, s: St, t: St, sp: nat, tp: nat, fuel: nat)
    requires s.vars == t.vars && st.DoWhile?
    ensures AlikeFlow(Exec(w, f, st, s, sp, fuel), Exec(w, f, st, t, tp, fuel))
    decreases fuel, st, 0
  {
    hide Value, Eval, ExecAll;
    SameAll(w, f, st.body, s, t, sp, tp, fuel);
    var p, q := ExecAll(w, f, st.body, s, sp, fuel), ExecAll(w, f, st.body, t, tp, fuel);
    if p.Ok? && q.Ok? {
      SameExpr(w, f, st.c, p.value.0, q.value.0, sp, tp, fuel);
      var p2, q2 := Eval(w, f, st.c, p.value.0, sp, fuel), Eval(w, f, st.c, q.value.0, tp, fuel);
      if p2.Ok? && q2.Ok? {
        SameValue(f, p2.value.0, q2.value.0, p2.value.1);
        if fuel > 0 {
          SameStmt(w, f, st, p2.value.0, q2.value.0, sp, tp, fuel - 1);
        }
      }
    }
  }

  lemma {:induction false} SameAll(w: World, f: Func, ss: Stmts, s: St, t: St, sp: nat, tp: nat, fuel: nat)
    requires s.vars == t.vars
    ensures AlikeFlow(ExecAll(w, f, ss, s, sp, fuel), ExecAll(w, f, ss, t, tp, fuel))
    decreases fuel, ss, 1
  {
    hide Exec;
    if ss.Cons? {
      SameStmt(w, f, ss.head, s, t, sp, tp, fuel);
      var p, q := Exec(w, f, ss.head, s, sp, fuel), Exec(w, f, ss.head, t, tp, fuel);
      if p.Ok? && q.Ok? {
        SameAll(w, f, ss.tail, p.value.0, q.value.0, sp, tp, fuel);
      }
    }
  }

  lemma {:induction false} SameElse(w: World, f: Func, els: Else, s: St, t: St, sp: nat, tp: nat, fuel: nat)
    requires s.vars == t.vars
    ensures AlikeFlow(ExecElse(w, f, els, s, sp, fuel), ExecElse(w, f, els, t, tp, fuel))
    decreases fuel, els, 1
  {
    hide Value, Eval, ExecAll;
    match els
    case NoElse =>
    case ElseBlock(b) => SameAll(w, f, b, s, t, sp, tp, fuel);
    case Elif(c, b, rest) =>
      SameExpr(w, f, c, s, t, sp, tp, fuel);
      var p, q := Eval(w, f, c, s, sp, fuel), Eval(w, f, c, t, tp, fuel);
      if p.Ok? && q.Ok? {
        SameValue(f, p.value.0, q.value.0, p.value.1);
        SameAll(w, f, b, p.value.0, q.value.0, sp, tp, fuel);
        SameElse(w, f, rest, p.value.0, q.value.0, sp, tp, fuel);
      }
  }
}
