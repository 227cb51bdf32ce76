/** Semantic preservation: running the code generated for an expression, a statement or a body from a state
    that represents the source state leads to a state that represents what the source evaluates to.

    The lemmas here work with every definition hidden and take what they need from the small lemmas of
    `SimGlue`, which keeps each proof obligation small. */
module Simulation {
  import opened Options
  import opened Bytes
  import opened Words
  import opened Ast
  import opened Layout
  import opened Insn
  import opened Machine
  import opened Codegen
  import opened Source
  import opened SimBase
  import opened SimSteps
  import opened SimGlue
  import opened Shapes
  import opened SimCalls
  import opened SimStmts
  import opened SimReturns

  lemma SimExpr(m: Image, c: Ctx, e: Expr, t: nat, l: Local, s: St, fuel: nat) returns (k: nat, l': Local)
    requires Pre(m, c, e, t, l, s)
    ensures Post(m, c, e, t, l, s, fuel, k, l')
    decreases fuel, e, 3
  {
    hide *;
    match e
    case Num(_) => k, l' := SimAtom(m, c, e, t, l, s, fuel);
    case Bool(_) => k, l' := SimAtom(m, c, e, t, l, s, fuel);
    case Name(_) => k, l' := SimAtom(m, c, e, t, l, s, fuel);
    case Assign(_, _) => k, l' := SimAssign(m, c, e, t, l, s, fuel);
    case AssignOp(_, _, _) => k, l' := SimAssign(m, c, e, t, l, s, fuel);
    case Arith(_, _, _) => k, l' := SimBin(m, c, e, t, l, s, fuel);
    case Cmp(_, _, _) => k, l' := SimBin(m, c, e, t, l, s, fuel);
    case Conj(_, _) => k, l' := SimLogic(m, c, e, t, l, s, fuel);
    case Disj(_, _) => k, l' := SimLogic(m, c, e, t, l, s, fuel);
    case Comma(_, _) => k, l' := SimComma(m, c, e, t, l, s, fuel);
    case UPlus(a) =>
      UnfoldUPlus(m, c, e, t, l, s, fuel);
      k, l' := SimExpr(m, c, a, t, l, s, fuel);
      SamePost(m, c, a, e, t, l, s, fuel, k, l');
    case PreInc(_, _) => k, l' := SimBump(m, c, e, t, l, s, fuel);
    case PostInc(_, _) => k, l' := SimBump(m, c, e, t, l, s, fuel);
    case Tern(_, _, _) => k, l' := SimTern(m, c, e, t, l, s, fuel);
    case Call(_, _) => k, l' := SimCall(m, c, e, t, l, s, fuel);
    case _ => k, l' := SimUnary(m, c, e, t, l, s, fuel);
  }

  lemma SimAssign(m: Image, c: Ctx, e: Expr, t: nat, l: Local, s: St, fuel: nat) returns (k: nat, l': Local)
    requires Pre(m, c, e, t, l, s) && (e.Assign? || e.AssignOp?)
    ensures Post(m, c, e, t, l, s, fuel, k, l')
    decreases fuel, e, 1
  {
    hide *;
    UnfoldAssign(m, c, e, t, l, s, fuel);
    k, l' := SimExpr(m, c, e.rhs, t, l, s, fuel);
    var out := Eval(m.w, c.f, e.rhs, s, l.sp, fuel);
    if out.Ok? {
      Open(m, c, e.rhs, t, l, s, fuel, k, l');
      var l1 := l';
      if e.Assign? {
        l' := DoAssignSim(m, c, l1, out.value.0, e.x, out.value.1, ResOpd(c, e.rhs, t), t, TempEnd(c, e.rhs, t));
      } else {
        l' := DoAssignOpSim(m, c, l1, out.value.0, e.op, e.x, out.value.1, ResOpd(c, e.rhs, t),
                            TypeOf(c.p, c.f, e.rhs), t, TempEnd(c, e.rhs, t));
      }
      Finish(m, c, e, t, l, s, fuel, k, l1, l', TempEnd(c, e.rhs, t), t, TempEnd(c, e.rhs, t));
      k := k + 1;
    } else {
      Fails(m, c, e.rhs, e, t, l, s, fuel, k, l');
    }
  }

  lemma SimBump(m: Image, c: Ctx, e: Expr, t: nat, l: Local, s: St, fuel: nat) returns (k: nat, l': Local)
    requires Pre(m, c, e, t, l, s) && (e.PreInc? || e.PostInc?)
    ensures Post(m, c, e, t, l, s, fuel, k, l')
  {
    hide *;
    UnfoldBump(m, c, e, t, l, s, fuel);
    Here(m, c, e, t, l, s);
    if e.PreInc? {
      l' := DoPreSim(m, c, l, s, e.up, e.x, t);
    } else {
      l' := DoPostSim(m, c, l, s, e.up, e.x, t);
    }
    Finish(m, c, e, t, l, s, fuel, 0, l, l', t, t, TempEnd(c, e, t));
    k := 1;
  }

  lemma SimUnary(m: Image, c: Ctx, e: Expr, t: nat, l: Local, s: St, fuel: nat) returns (k: nat, l': Local)
    requires Pre(m, c, e, t, l, s) && (e.Cast? || e.UMinus? || e.LNot? || e.BNot?)
    ensures Post(m, c, e, t, l, s, fuel, k, l')
    decreases fuel, e, 1
  {
    hide *;
    UnfoldUnary(m, c, e, t, l, s, fuel);
    UnaryInsnAt(m, c, e, t, l, s);
    UnaryEval(m.w, c.f, e, s, l.sp, fuel);
    k, l' := SimExpr(m, c, e.e, t, l, s, fuel);
    var out := Eval(m.w, c.f, e.e, s, l.sp, fuel);
    if out.Ok? {
      Open(m, c, e.e, t, l, s, fuel, k, l');
      var l1 := l';
      var s1, r, o, et, t1 := out.value.0, out.value.1, ResOpd(c, e.e, t), TypeOf(c.p, c.f, e.e), TempEnd(c, e.e, t);
      match e {
        case Cast(_, to) => l' := DoCastSim(m, c, l1, s1, to, r, o, et, t, t1);
        case UMinus(_) => l' := DoMinusSim(m, c, l1, s1, r, o, et, t, t1);
        case LNot(_) => l' := DoNotSim(m, c, l1, s1, r, o, et, t, t1);
        case BNot(_) => l' := DoComplementSim(m, c, l1, s1, r, o, et, t, t1);
      }
      Finish(m, c, e, t, l, s, fuel, k, l1, l', t1, t1, TempEnd(c, e, t));
      k := k + 1;
    } else {
      Fails(m, c, e.e, e, t, l, s, fuel, k, l');
    }
  }

  /** Both operands of a binary operator: the left operand survives the evaluation of the right one. */
  lemma SimPair(m: Image, c: Ctx, e: Expr, t: nat, l: Local, s: St, fuel: nat) returns (k: nat, l': Local)
    requires Pre(m, c, e, t, l, s) && (e.Arith? || e.Cmp?)
    ensures PairPost(m, c, e, t, l, s, fuel, k, l')
    decreases fuel, e, 1
  {
    hide *;
    UnfoldPair(m, c, e, t, l, s, fuel);
    k, l' := SimExpr(m, c, e.l, t, l, s, fuel);
    var out := Eval(m.w, c.f, e.l, s, l.sp, fuel);
    if out.Ok? {
      Open(m, c, e.l, t, l, s, fuel, k, l');
      var l1, s1, t1 := l', out.value.0, TempEnd(c, e.l, t);
      Continue(m, c, e.r, t, t1, l, s, k, l1, s1);
      var k2, l2 := SimExpr(m, c, e.r, t1, l1, s1, fuel);
      ReadyLazy(m, c, l, s);
      PairDone(m, c, e, t, l, s, fuel, k, l1, k2, l2);
      k, l' := k + k2, l2;
    } else {
      PairFails(m, c, e, t, l, s, fuel, k, l');
    }
  }

  lemma SimBin(m: Image, c: Ctx, e: Expr, t: nat, l: Local, s: St, fuel: nat) returns (k: nat, l': Local)
    requires Pre(m, c, e, t, l, s) && (e.Arith? || e.Cmp?)
    ensures Post(m, c, e, t, l, s, fuel, k, l')
    decreases fuel, e, 2
  {
    hide *;
    k, l' := SimPair(m, c, e, t, l, s, fuel);
    UnfoldBin(m, c, e, t, l, s, fuel, k, l');
    var out := EvalPair(m.w, c.f, e, s, l.sp, fuel);
    if out.Ok? {
      var l1 := l';
      var t1 := TempEnd(c, e.l, t);
      var t2 := TempEnd(c, e.r, t1);
      var (s1, a, b) := out.value;
      if e.Arith? {
        l' := DoArithSim(m, c, l1, s1, e.op, a, b, ResOpd(c, e.l, t), ResOpd(c, e.r, t1),
                         TypeOf(c.p, c.f, e.l), TypeOf(c.p, c.f, e.r), t, t1, t2);
      } else {
        l' := DoCmpSim(m, c, l1, s1, e.cmp, a, b, ResOpd(c, e.l, t), ResOpd(c, e.r, t1),
                       TypeOf(c.p, c.f, e.l), TypeOf(c.p, c.f, e.r), t, t1, t2);
      }
      Finish(m, c, e, t, l, s, fuel, k, l1, l', t2, t2, TempEnd(c, e, t));
      k := k + 1;
    }
  }

  lemma SimAtom(m: Image, c: Ctx, e: Expr, t: nat, l: Local, s: St, fuel: nat) returns (k: nat, l': Local)
    requires Pre(m, c, e, t, l, s) && (e.Num? || e.Bool? || e.Name?)
    ensures Post(m, c, e, t, l, s, fuel, k, l')
    decreases fuel, e, 1
  {
    hide *;
    Here(m, c, e, t, l, s);
    AtomPost(m, c, e, t, l, s, fuel);
    k, l' := 0, l;
  }

  lemma SimLogic(m: Image, c: Ctx, e: Expr, t: nat, l: Local, s: St, fuel: nat) returns (k: nat, l': Local)
    requires Pre(m, c, e, t, l, s) && (e.Conj? || e.Disj?)
    ensures Post(m, c, e, t, l, s, fuel, k, l')
    decreases fuel, e, 1
  {
    hide *;
    AllocByte(t);
    UnfoldLogic(m, c, e, t, l, s, fuel);
    k, l' := SimExpr(m, c, e.l, t, l, s, fuel);
    LogicEval(m.w, c.f, e, s, l.sp, fuel);
    var out := Eval(m.w, c.f, e.l, s, l.sp, fuel);
    if !out.Ok? {
      Fails(m, c, e.l, e, t, l, s, fuel, k, l');
    } else if Value(c.f, out.value.0, out.value.1).Undef? {
      UndefPost(m, c, e, t, l, s, fuel, k, l');
    } else {
      var s1, v := out.value.0, Value(c.f, out.value.0, out.value.1).value.0;
      var t0 := TempEnd(c, e.l, t);
      var l3 := LogicLeft(m, c, e, t, l, s, fuel, k, l');
      if (v == 0) == e.Conj? {
        PreParts(m, c, e, t, l, s);
        LogicTypes(c, e);
        LogicTemps(c, e, t);
        k, l' := k + 2, l3;
        MkPost(m, c, e, t, l, s, fuel, k, l', s1, Truth(v != 0), t0, AllocEnd(t0, 1));
      } else {
        PreParts(m, c, e, t, l, s);
        LogicTypes(c, e);
        LogicPlaced(m.code, c, l.ip, t, e);
        Continue(m, c, e.r, t, AllocEnd(t0, 1), l, s, k + 2, l3, s1);
        var k2, l4 := SimExpr(m, c, e.r, AllocEnd(t0, 1), l3, s1, fuel);
        k, l' := LogicRight(m, c, e, t, l, s, fuel, k + 2, l3, s1, k2, l4);
      }
    }
  }

  lemma SimComma(m: Image, c: Ctx, e: Expr, t: nat, l: Local, s: St, fuel: nat) returns (k: nat, l': Local)
    requires Pre(m, c, e, t, l, s) && (e.Comma?)
    ensures Post(m, c, e, t, l, s, fuel, k, l')
    decreases fuel, e, 1
  {
    hide *;
    UnfoldComma(m, c, e, t, l, s, fuel);
    PreParts(m, c, e, t, l, s);
    k, l' := SimExpr(m, c, e.l, t, l, s, fuel);
    var out := Eval(m.w, c.f, e.l, s, l.sp, fuel);
    if out.Ok? {
      Open(m, c, e.l, t, l, s, fuel, k, l');
      var l1, s1 := l', out.value.0;
      Continue(m, c, e.r, t, t, l, s, k, l1, s1);
      var k2, l2 := SimExpr(m, c, e.r, t, l1, s1, fuel);
      CommaDone(m, c, e, t, l, s, fuel, k, l1, s1, k2, l2);
      k, l' := k + k2, l2;
    } else {
      Fails(m, c, e.l, e, t, l, s, fuel, k, l');
    }
  }

  lemma SimTern(m: Image, c: Ctx, e: Expr, t: nat, l: Local, s: St, fuel: nat) returns (k: nat, l': Local)
    requires Pre(m, c, e, t, l, s) && (e.Tern?)
    ensures Post(m, c, e, t, l, s, fuel, k, l')
    decreases fuel, e, 1
  {
    hide *;
    UnfoldTern(m, c, e, t, l, s, fuel);
    k, l' := SimExpr(m, c, e.c, t, l, s, fuel);
    TernEval(m.w, c.f, e, s, l.sp, fuel);
    var out := Eval(m.w, c.f, e.c, s, l.sp, fuel);
    if !out.Ok? {
      Fails(m, c, e.c, e, t, l, s, fuel, k, l');
    } else if Value(c.f, out.value.0, out.value.1).Undef? {
      UndefPost(m, c, e, t, l, s, fuel, k, l');
    } else {
      var s1, v := out.value.0, Value(c.f, out.value.0, out.value.1).value.0;
      var l2 := TernJump(m, c, e, t, l, s, fuel, k, l');
      var k2, l3 := 0, l2;
      if v != 0 {
        k2, l3 := SimExpr(m, c, e.t, TernBase(c, e, t), l2, s1, fuel);
      } else {
        k2, l3 := SimExpr(m, c, e.f, TernBase(c, e, t), l2, s1, fuel);
      }
      k, l' := TernDone(m, c, e, t, l, s, fuel, v != 0, k + 1, l2, s1, k2, l3);
    }
  }

  /** A call: the return state and the arguments are pushed, the callee's body runs on one unit of fuel
      less, and its return instruction continues after the call with the caller's frame as it was. */
  lemma SimCall(m: Image, c: Ctx, e: Expr, t: nat, l: Local, s: St, fuel: nat) returns (k: nat, l': Local)
    requires Pre(m, c, e, t, l, s) && e.Call?
    ensures Post(m, c, e, t, l, s, fuel, k, l')
    decreases fuel, e, 2
  {
    hide *;
    PreReady(m, c, e, t, l, s);
    PreParts(m, c, e, t, l, s);
    CallTypes(c, e);
    CallTemps(c, e, t);
    CallPlaced(m.code, c, l.ip, t, e);
    ImageFacts(m, c, e.g);
    CallEval(m.w, c.f, e, s, l.sp, fuel);
    FramedOf(c, l, s);
    if l.sp + 16 > m.w.cap {
      PushROverflow(m, l, TempAt(t, U64), l.ip + 1 + LenArgs(e.args));
      k, l' := 1, l;
      CallOverflow(m, c, e, t, l, s, fuel, l');
    } else {
      Here(m, c, e, t, l, s);
      PushRTarget(m, c, e, t, l.ip);
      var l1 := PushRSim(m, c, l, s, t, l.ip + 1 + LenArgs(e.args));
      GrowFacts(c.frame, l, l1, t);
      MkReady(m, c, l1, s);
      MkArgsPre(m, c, e.args, c.p[e.g], 0, AllocEnd(t, 8), l1, s);
      Extend(m, l, 0, l, l1);
      var k2, l2 := SimArgs(m, c, e.args, c.p[e.g], 0, AllocEnd(t, 8), l1, s, fuel);
      var q := EvalArgs(m.w, c.f, e.args, s, l1.sp, fuel);
      if !q.Ok? {
        ArgsOpen(m, c, e.args, c.p[e.g], 0, AllocEnd(t, 8), l1, s, fuel, k2, l2);
        CallFails(m, c, e, t, l, s, fuel, 1, l1, q, fuel, k2, l2);
        k, l' := 1 + k2, l2;
      } else {
        Prepare(m, c, e, t, l, s, fuel, l1, k2, l2);
        k, l' := SimCallee(m, c, e, t, l, s, fuel, 1 + k2, l2, q.value.0, q.value.1);
      }
    }
  }

  /** The call instruction, the callee and the return. */
  lemma SimCallee(m: Image, c: Ctx, e: Expr, t: nat, l: Local, s: St, fuel: nat, k: nat, l2: Local, s1: St, vals: seq<int>)
    returns (k': nat, l': Local)
    requires Pre(m, c, e, t, l, s) && Prepared(m, c, e, t, l, k, l2, s1, vals) && e.Call?
    requires l.sp + 16 <= m.w.cap && EvalArgs(m.w, c.f, e.args, s, l.sp + 16, fuel) == Ok((s1, vals, l2.sp))
    ensures Post(m, c, e, t, l, s, fuel, k', l')
    decreases fuel, e, 1
  {
    hide *;
    PreReady(m, c, e, t, l, s);
    PreParts(m, c, e, t, l, s);
    PreparedParts(m, c, e, t, l, k, l2, s1, vals);
    CallTypes(c, e);
    ImageFacts(m, c, e.g);
    CallEval(m.w, c.f, e, s, l.sp, fuel);
    if fuel == 0 {
      CallTimeout(m, c, e, t, l, s, k, l2, l2);
      k', l' := k, l2;
    } else {
      var l3 := CallEnters(m, c, e, t, l, s, k, l2, s1, vals);
      Extend(m, l, k, l2, l3);
      var k3, l4 := SimBody(m, e.g, l3, vals, s1.noint, s1.passed, fuel - 1);
      BodyOpen(m, e.g, l3, vals, s1.noint, s1.passed, fuel - 1, k3, l4);
      var b := EvalBody(m.w, e.g, vals, s1.noint, s1.passed, l2.sp, fuel - 1);
      if b.Ok? {
        var l5 := CallReturns(m, c, e, t, l, s, k, l2, s1, vals, l3, k3, l4, b.value);
        CallDone(m, c, e, t, l, s, fuel, k, l2, s1, vals, l3, k3, l4, b.value, l5);
        k', l' := k + 1 + k3 + 1, l5;
      } else {
        CallFails(m, c, e, t, l, s, fuel, k + 1, l3, b, fuel - 1, k3, l4);
        k', l' := k + 1 + k3, l4;
      }
    }
  }

  lemma SimArgs(m: Image, c: Ctx, args: Args, g: Func, i: nat, t: nat, l: Local, s: St, fuel: nat)
    returns (k: nat, l': Local)
    requires ArgsPre(m, c, args, g, i, t, l, s)
    ensures ArgsPost(m, c, args, g, i, t, l, s, fuel, k, l')
    decreases fuel, args, 0
  {
    hide *;
    match args
    case NoArgs =>
      ArgsHere(m, c, g, i, t, l, s, fuel);
      k, l' := 0, l;
    case Arg(a, rest) =>
      ArgsParts(m, c, args, g, i, t, l, s);
      ArgTypes(c, args, g, i);
      ArgTemps(c, args, t);
      ArgPlaced(m.code, c, l.ip, t, args);
      MkPre(m, c, a, t, l, s);
      k, l' := SimExpr(m, c, a, t, l, s, fuel);
      ArgEval(m.w, c.f, args, s, l.sp, fuel);
      var r := Eval(m.w, c.f, a, s, l.sp, fuel);
      if !r.Ok? {
        ArgsFail(m, c, args, g, i, t, l, s, fuel, k, l');
      } else if Value(c.f, r.value.0, r.value.1).Undef? {
        ArgsUndef(m, c, args, g, i, t, l, s, fuel, k, l');
      } else {
        Open(m, c, a, t, l, s, fuel, k, l');
        var l1, s1, t1 := l', r.value.0, TempEnd(c, a, t);
        ReadyParts(m, c, l1, s1);
        ReadOpd(c, l1, s1, r.value.1, ResOpd(c, a, t), TypeOf(c.p, c.f, a), t, t1);
        var v := Value(c.f, s1, r.value.1).value.0;
        if l1.sp + 8 > m.w.cap {
          PushStep(m, l1, ResOpd(c, a, t), g.vars[i].ty.value);
          StopsHere(m, l, k, l1, fuel);
          ArgsOverflow(m, c, args, g, i, t, l, s, fuel, k + 1, l1);
          k, l' := k + 1, l1;
        } else {
          var l2 := PushSim(m, c, l1, s1, ResOpd(c, a, t), g, i, v, t);
          GrowFacts(c.frame, l1, l2, t);
          MkReady(m, c, l2, s1);
          MkArgsPre(m, c, rest, g, i + 1, t1, l2, s1);
          var k2, l3 := SimArgs(m, c, rest, g, i + 1, t1, l2, s1, fuel);
          ArgsDone(m, c, args, g, i, t, l, s, fuel, k, l1, s1, t1, l2, k2, l3, v);
          k, l' := k + 1 + k2, l3;
        }
      }
  }

  lemma SimBody(m: Image, g: nat, l: Local, vals: seq<int>, noint: Flag, passed: Label, fuel: nat)
    returns (k: nat, l': Local)
    requires Entry(m, g, l, vals, noint, passed)
    ensures BodyPost(m, g, l, vals, noint, passed, fuel, k, l')
    decreases fuel, if g < |m.w.prog| then m.w.prog[g].body else Nil, 2
  {
    hide *;
    Enter(m, g, l, vals, noint, passed);
    BodyEval(m.w, g, vals, noint, passed, l.sp, fuel);
    var o := EvalBody(m.w, g, vals, noint, passed, l.sp, fuel);
    var c := FuncCtx(m, g);
    if l.sp + m.w.locals[g] > m.w.cap {
      MkOverflow(m, l, fuel);
      k, l' := 1, l;
      OverflowKind(o);
      BodyFails(m, g, l, vals, noint, passed, fuel, k, l');
    } else {
      var l1, s := Entered(c, l, m.w.locals[g], m.fill), St(Bind(vals), noint, passed);
      var k1, l2 := SimAll(m, c, m.w.prog[g].body, l1, s, fuel);
      var q := ExecAll(m.w, m.w.prog[g], m.w.prog[g].body, s, l1.sp, fuel);
      SOpen(m, c, l1, l1.ip + LenAll(c.f.body), q, fuel, k1, l2);
      k, l' := 1 + k1, l2;
      if !q.Ok? {
        FailStep(m, l, l1, k1, Kind(q), fuel);
        SameKind(o, q);
        BodyFails(m, g, l, vals, noint, passed, fuel, k, l');
      } else if o.Ok? {
        EnteredIs(c, l, m.w.locals[g], m.fill);
        if q.value.1.Fall? {
          MkAtReturnVoid(m, c, l2);
        }
        MkReturning(m, g, l, l1, s, k1, l2, q.value.0, o.value);
        MkBodyPost(m, g, l, vals, noint, passed, fuel, k, l', o.value);
      } else {
        UndefFail(m, l, k, fuel, o);
        BodyFails(m, g, l, vals, noint, passed, fuel, k, l');
      }
    }
  }

  lemma SimAll(m: Image, c: Ctx, ss: Stmts, l: Local, s: St, fuel: nat) returns (k: nat, l': Local)
    requires APre(m, c, ss, l, s)
    ensures SPost(m, c, l, l.ip + LenAll(ss), ExecAll(m.w, c.f, ss, s, l.sp, fuel), fuel, k, l')
    decreases fuel, ss, 1
  {
    hide *;
    ConsEval(m.w, c.f, ss, s, l.sp, fuel);
    var o := ExecAll(m.w, c.f, ss, s, l.sp, fuel);
    var end := l.ip + LenAll(ss);
    match ss
    case Nil =>
      APreReady(m, c, ss, l, s);
      StayMid(m, c, l, s);
      k, l' := 0, l;
      SFall(m, c, l, end, o, fuel, k, l', s);
    case Cons(st, rest) =>
      ConsUnfold(m, c, ss, l, s);
      k, l' := SimStmt(m, c, st, l, s, fuel);
      var q := Exec(m.w, c.f, st, s, l.sp, fuel);
      SOpen(m, c, l, l.ip + LenS(st), q, fuel, k, l');
      if !q.Ok? {
        SFail(m, c, l, end, q, o, fuel, k, l');
      } else if q.value.1.Returned? {
        SReturned(m, c, l, end, o, fuel, k, l', q.value.0, q.value.1.v);
      } else {
        var l1, s1 := l', q.value.0;
        MidReady(m, c, l, s, k, l1, s1, 0);
        MkAPre(m, c, rest, l1, s1);
        var k2, l2 := SimAll(m, c, rest, l1, s1, fuel);
        SChain(m, c, l, k, l1, s1, end, o, fuel, fuel, k2, l2);
        k, l' := k + k2, l2;
      }
  }

  lemma SimStmt(m: Image, c: Ctx, st: Stmt, l: Local, s: St, fuel: nat) returns (k: nat, l': Local)
    requires SPre(m, c, st, l, s)
    ensures SPost(m, c, l, l.ip + LenS(st), Exec(m.w, c.f, st, s, l.sp, fuel), fuel, k, l')
    decreases fuel, st, 1
  {
    hide *;
    match st
    case Decl(_, _) => k, l' := SimDecl(m, c, st, l, s, fuel);
    case ExprS(_) => k, l' := SimExprS(m, c, st, l, s, fuel);
    case Block(b) =>
      BlockUnfold(m, c, st, l, s, fuel);
      k, l' := SimAll(m, c, b, l, s, fuel);
    case NoInt(_) => k, l' := SimNoInt(m, c, st, l, s, fuel);
    case If(els) =>
      IfUnfold(m, c, st, l, s, fuel);
      k, l' := SimElse(m, c, els, l.ip + LenS(st), l, s, fuel);
    case While(_, _) => k, l' := SimWhile(m, c, st, l, s, fuel);
    case DoWhile(_, _) => k, l' := SimDoWhile(m, c, st, l, s, fuel);
    case Return(_) => k, l' := SimReturn(m, c, st, l, s, fuel);
    case WLabel(_) =>
      WLabelUnfold(m, c, st, l, s, fuel);
      SParts(m, c, st, l, s);
      StayMid(m, c, l, s);
      AtIs(m.code, l.ip, WLab(st.lab));
      FlagChanges(WLab(st.lab), s);
      l' := FlagStep(m, c, l, s, 0, l, s);
      k := 1;
      SFall(m, c, l, l.ip + LenS(st), Exec(m.w, c.f, st, s, l.sp, fuel), fuel, k, l', s.(passed := st.lab));
  }

  lemma SimDecl(m: Image, c: Ctx, st: Stmt, l: Local, s: St, fuel: nat) returns (k: nat, l': Local)
    requires SPre(m, c, st, l, s) && st.Decl?
    ensures SPost(m, c, l, l.ip + LenS(st), Exec(m.w, c.f, st, s, l.sp, fuel), fuel, k, l')
    decreases fuel, st, 0
  {
    hide *;
    SParts(m, c, st, l, s);
    DeclUnfold(m, c, st, l, s, fuel);
    var end, o := l.ip + LenS(st), Exec(m.w, c.f, st, s, l.sp, fuel);
    if st.init.None? {
      StayMid(m, c, l, s);
      k, l' := 0, l;
      SFall(m, c, l, end, o, fuel, k, l', s);
    } else {
      var e := st.init.value;
      k, l' := SimExpr(m, c, e, 0, l, s, fuel);
      var r := Eval(m.w, c.f, e, s, l.sp, fuel);
      if !r.Ok? {
        PostFails(m, c, e, 0, l, s, fuel, k, l');
        SFail(m, c, l, end, r, o, fuel, k, l');
      } else {
        Open(m, c, e, 0, l, s, fuel, k, l');
        var l1 := l';
        var k2, l2 := SimInit(m, c, l1, r.value.0, st.names, r.value.1, ResOpd(c, e, 0), TypeOf(c.p, c.f, e),
                              TempEnd(c, e, 0));
        var q := InitAll(c.f, st.names, r.value.0, r.value.1);
        k, l' := k + k2, l2;
        if q.Ok? {
          MidTrans(m, c, l, k - k2, l1, r.value.0, k2, l2, q.value, 0, 0);
          SFall(m, c, l, end, o, fuel, k, l', q.value);
        } else {
          SUndef(m, c, l, end, o, fuel, k, l');
        }
      }
    }
  }

  lemma SimExprS(m: Image, c: Ctx, st: Stmt, l: Local, s: St, fuel: nat) returns (k: nat, l': Local)
    requires SPre(m, c, st, l, s) && st.ExprS?
    ensures SPost(m, c, l, l.ip + LenS(st), Exec(m.w, c.f, st, s, l.sp, fuel), fuel, k, l')
    decreases fuel, st, 0
  {
    hide *;
    ExprSUnfold(m, c, st, l, s, fuel);
    var end, o := l.ip + LenS(st), Exec(m.w, c.f, st, s, l.sp, fuel);
    k, l' := SimExpr(m, c, st.e, 0, l, s, fuel);
    var r := Eval(m.w, c.f, st.e, s, l.sp, fuel);
    if r.Ok? {
      Open(m, c, st.e, 0, l, s, fuel, k, l');
      var l1 := l';
      NopIs(m, l1);
      GotoMid(m, c, l, k, l1, r.value.0, 0, l1.ip + 1);
      k, l' := k + 1, l1.(ip := l1.ip + 1);
      SFall(m, c, l, end, o, fuel, k, l', r.value.0);
    } else {
      PostFails(m, c, st.e, 0, l, s, fuel, k, l');
      SFail(m, c, l, end, r, o, fuel, k, l');
    }
  }

  lemma SimNoInt(m: Image, c: Ctx, st: Stmt, l: Local, s: St, fuel: nat) returns (k: nat, l': Local)
    requires SPre(m, c, st, l, s) && st.NoInt?
    ensures SPost(m, c, l, l.ip + LenS(st), Exec(m.w, c.f, st, s, l.sp, fuel), fuel, k, l')
    decreases fuel, st, 0
  {
    hide *;
    SParts(m, c, st, l, s);
    NoIntUnfold(m, c, st, l, s, fuel);
    var end, o := l.ip + LenS(st), Exec(m.w, c.f, st, s, l.sp, fuel);
    StayMid(m, c, l, s);
    AtIs(m.code, l.ip, NoIntI);
    FlagChanges(NoIntI, s);
    var s0 := s.(noint := s.noint.Raised());
    var l1 := FlagStep(m, c, l, s, 0, l, s);
    MidReady(m, c, l, s, 1, l1, s0, 0);
    MkAPre(m, c, st.body, l1, s0);
    var k2, l2 := SimAll(m, c, st.body, l1, s0, fuel);
    var q := ExecAll(m.w, c.f, st.body, s0, l.sp, fuel);
    SOpen(m, c, l1, l1.ip + LenAll(st.body), q, fuel, k2, l2);
    k, l' := 1 + k2, l2;
    if !q.Ok? {
      SChain(m, c, l, 1, l1, s0, l1.ip + LenAll(st.body), q, fuel, fuel, k2, l2);
      SOpen(m, c, l, l1.ip + LenAll(st.body), q, fuel, k, l');
      SFail(m, c, l, end, q, o, fuel, k, l');
    } else {
      MidTrans(m, c, l, 1, l1, s0, k2, l2, q.value.0, 0, 0);
      if q.value.1.Returned? {
        SReturned(m, c, l, end, o, fuel, k, l', q.value.0, q.value.1.v);
      } else {
        AtIs(m.code, l2.ip, IntI);
        FlagChanges(IntI, q.value.0);
        l' := FlagStep(m, c, l, s, k, l2, q.value.0);
        k := k + 1;
        SFall(m, c, l, end, o, fuel, k, l', q.value.0.(noint := q.value.0.noint.Lowered()));
      }
    }
  }

  lemma SimReturn(m: Image, c: Ctx, st: Stmt, l: Local, s: St, fuel: nat) returns (k: nat, l': Local)
    requires SPre(m, c, st, l, s) && st.Return?
    ensures SPost(m, c, l, l.ip + LenS(st), Exec(m.w, c.f, st, s, l.sp, fuel), fuel, k, l')
    decreases fuel, st, 0
  {
    hide *;
    SParts(m, c, st, l, s);
    ReturnUnfold(m, c, st, l, s, fuel);
    var end, o := l.ip + LenS(st), Exec(m.w, c.f, st, s, l.sp, fuel);
    if st.val.None? {
      StayMid(m, c, l, s);
      k, l' := 0, l;
      SReturned(m, c, l, end, o, fuel, k, l', s, None);
    } else {
      var e := st.val.value;
      k, l' := SimExpr(m, c, e, 0, l, s, fuel);
      var r := Eval(m.w, c.f, e, s, l.sp, fuel);
      if !r.Ok? {
        PostFails(m, c, e, 0, l, s, fuel, k, l');
        SFail(m, c, l, end, r, o, fuel, k, l');
      } else {
        Open(m, c, e, 0, l, s, fuel, k, l');
        var (s1, a) := r.value;
        CondValue(c.f, s1, a);
        if Value(c.f, s1, a).Ok? {
          ReadOpd(c, l', s1, a, ResOpd(c, e, 0), TypeOf(c.p, c.f, e), 0, TempEnd(c, e, 0));
          var v := Value(c.f, s1, a).value.0;
          MkAtReturn(m, c, l', ResOpd(c, e, 0), v);
          SReturned(m, c, l, end, o, fuel, k, l', s1, Some(v));
        } else {
          SUndef(m, c, l, end, o, fuel, k, l');
        }
      }
    }
  }

  lemma SimWhile(m: Image, c: Ctx, st: Stmt, l: Local, s: St, fuel: nat) returns (k: nat, l': Local)
    requires SPre(m, c, st, l, s) && st.While?
    ensures SPost(m, c, l, l.ip + LenS(st), Exec(m.w, c.f, st, s, l.sp, fuel), fuel, k, l')
    decreases fuel, st, 0
  {
    hide *;
    WhileUnfold(m, c, st, l, s);
    WhileEval(m.w, c.f, st, s, l.sp, fuel);
    var end, o := l.ip + LenS(st), Exec(m.w, c.f, st, s, l.sp, fuel);
    k, l' := SimExpr(m, c, st.c, 0, l, s, fuel);
    var r := Eval(m.w, c.f, st.c, s, l.sp, fuel);
    if !r.Ok? {
      PostFails(m, c, st.c, 0, l, s, fuel, k, l');
      SFail(m, c, l, end, r, o, fuel, k, l');
    } else {
      var (s1, a) := r.value;
      CondValue(c.f, s1, a);
      if Value(c.f, s1, a).Undef? {
        SUndef(m, c, l, end, o, fuel, k, l');
      } else {
        l' := CondJump(m, c, st.c, l, s, fuel, k, l', end, true);
        k := k + 1;
        if Value(c.f, s1, a).value.0 == 0 {
          SFall(m, c, l, end, o, fuel, k, l', s1);
        } else {
          k, l' := SimRound(m, c, st, l, s, fuel, k, l', s1);
        }
      }
    }
  }

  /** The body of a while loop whose condition holds, and everything after it. */
  lemma SimRound(m: Image, c: Ctx, st: Stmt, l: Local, s: St, fuel: nat, k: nat, l1: Local, s1: St)
    returns (k': nat, l': Local)
    requires SPre(m, c, st, l, s) && st.While?
    requires Mid(m, c, l, k, l1, s1, 0) && Ready(m, c, l1, s1) && l1.ip == l.ip + Len(st.c) + 1 && k >= 1
    requires var o, q := Exec(m.w, c.f, st, s, l.sp, fuel), ExecAll(m.w, c.f, st.body, s1, l.sp, fuel);
      if !q.Ok? then Kind(o) == Kind(q)
      else if q.value.1.Returned? then o == q
      else if fuel == 0 then o.Timeout?
      else o == Exec(m.w, c.f, st, q.value.0, l.sp, fuel - 1)
    ensures SPost(m, c, l, l.ip + LenS(st), Exec(m.w, c.f, st, s, l.sp, fuel), fuel, k', l')
    decreases fuel, st.body, 2
  {
    hide *;
    SParts(m, c, st, l, s);
    WhileUnfold(m, c, st, l, s);
    MidReady(m, c, l, s, k, l1, s1, 0);
    var end, o := l.ip + LenS(st), Exec(m.w, c.f, st, s, l.sp, fuel);
    MkAPre(m, c, st.body, l1, s1);
    var k2, l2 := SimAll(m, c, st.body, l1, s1, fuel);
    var q := ExecAll(m.w, c.f, st.body, s1, l1.sp, fuel);
    var bend := l1.ip + LenAll(st.body);
    SOpen(m, c, l1, bend, q, fuel, k2, l2);
    k', l' := k + k2, l2;
    if !q.Ok? {
      SChain(m, c, l, k, l1, s1, bend, q, fuel, fuel, k2, l2);
      SOpen(m, c, l, bend, q, fuel, k', l');
      SFail(m, c, l, end, q, o, fuel, k', l');
    } else {
      MidTrans(m, c, l, k, l1, s1, k2, l2, q.value.0, 0, 0);
      if q.value.1.Returned? {
        SReturned(m, c, l, end, o, fuel, k', l', q.value.0, q.value.1.v);
      } else if fuel == 0 {
        STimeout(m, c, l, k', l2, q.value.0, end, o, l');
      } else {
        var s2, l3 := q.value.0, l2.(ip := l.ip);
        JmpIs(m, l2, l.ip);
        GotoMid(m, c, l, k', l2, s2, 0, l.ip);
        SAgain(m, c, st, l, s, k' + 1, l3, s2);
        var k4, l4 := SimStmt(m, c, st, l3, s2, fuel - 1);
        SChain(m, c, l, k' + 1, l3, s2, end, o, fuel - 1, fuel, k4, l4);
        k', l' := k' + 1 + k4, l4;
      }
    }
  }

  lemma SimDoWhile(m: Image, c: Ctx, st: Stmt, l: Local, s: St, fuel: nat) returns (k: nat, l': Local)
    requires SPre(m, c, st, l, s) && st.DoWhile?
    ensures SPost(m, c, l, l.ip + LenS(st), Exec(m.w, c.f, st, s, l.sp, fuel), fuel, k, l')
    decreases fuel, st, 0
  {
    hide *;
    SParts(m, c, st, l, s);
    DoWhileUnfold(m, c, st, l, s);
    DoWhileEval(m.w, c.f, st, s, l.sp, fuel);
    var end, o := l.ip + LenS(st), Exec(m.w, c.f, st, s, l.sp, fuel);
    k, l' := SimAll(m, c, st.body, l, s, fuel);
    var q := ExecAll(m.w, c.f, st.body, s, l.sp, fuel);
    SOpen(m, c, l, l.ip + LenAll(st.body), q, fuel, k, l');
    if !q.Ok? {
      SFail(m, c, l, end, q, o, fuel, k, l');
    } else if q.value.1.Returned? {
      SReturned(m, c, l, end, o, fuel, k, l', q.value.0, q.value.1.v);
    } else {
      k, l' := SimUntil(m, c, st, l, s, fuel, k, l', q.value.0);
    }
  }

  /** The condition of a do-while loop after its body, and everything after it. */
  lemma SimUntil(m: Image, c: Ctx, st: Stmt, l: Local, s: St, fuel: nat, k: nat, l1: Local, s1: St)
    returns (k': nat, l': Local)
    requires SPre(m, c, st, l, s) && st.DoWhile?
    requires Mid(m, c, l, k, l1, s1, 0) && l1.ip == l.ip + LenAll(st.body)
    requires var o, r := Exec(m.w, c.f, st, s, l.sp, fuel), Eval(m.w, c.f, st.c, s1, l.sp, fuel);
      if !r.Ok? then Kind(o) == Kind(r)
      else
        var v := Value(c.f, r.value.0, r.value.1);
        && (v.Undef? ==> o.Undef?)
        && (v.Ok? && v.value.0 == 0 ==> o == Ok((r.value.0, Fall)))
        && (v.Ok? && v.value.0 != 0 ==>
              if fuel == 0 then o.Timeout? else o == Exec(m.w, c.f, st, r.value.0, l.sp, fuel - 1))
    ensures SPost(m, c, l, l.ip + LenS(st), Exec(m.w, c.f, st, s, l.sp, fuel), fuel, k', l')
    decreases fuel, st.c, 4
  {
    hide *;
    SParts(m, c, st, l, s);
    DoWhileUnfold(m, c, st, l, s);
    MidReady(m, c, l, s, k, l1, s1, 0);
    MkPre(m, c, st.c, 0, l1, s1);
    var end, o := l.ip + LenS(st), Exec(m.w, c.f, st, s, l.sp, fuel);
    var k2, l2 := SimExpr(m, c, st.c, 0, l1, s1, fuel);
    var r := Eval(m.w, c.f, st.c, s1, l1.sp, fuel);
    k', l' := k + k2, l2;
    if !r.Ok? {
      PostFails(m, c, st.c, 0, l1, s1, fuel, k2, l2);
      MidFacts(m, c, l, k, l1, s1, 0);
      ChainFail(m, l, k, l1, k2, Kind(r), fuel);
      SFail(m, c, l, end, r, o, fuel, k', l');
    } else {
      var (s2, a) := r.value;
      CondValue(c.f, s2, a);
      if Value(c.f, s2, a).Undef? {
        SUndef(m, c, l, end, o, fuel, k', l');
      } else {
        var l3 := CondJump(m, c, st.c, l1, s1, fuel, k2, l2, l.ip, false);
        MidTrans(m, c, l, k, l1, s1, k2 + 1, l3, s2, 0, 0);
        k', l' := k + (k2 + 1), l3;
        if Value(c.f, s2, a).value.0 == 0 {
          SFall(m, c, l, end, o, fuel, k', l', s2);
        } else if fuel == 0 {
          STimeout(m, c, l, k', l3, s2, end, o, l');
        } else {
          SAgain(m, c, st, l, s, k', l3, s2);
          var k4, l4 := SimStmt(m, c, st, l3, s2, fuel - 1);
          SChain(m, c, l, k', l3, s2, end, o, fuel - 1, fuel, k4, l4);
          k', l' := k' + k4, l4;
        }
      }
    }
  }

  lemma SimElse(m: Image, c: Ctx, els: Else, end: nat, l: Local, s: St, fuel: nat) returns (k: nat, l': Local)
    requires EPre(m, c, els, end, l, s)
    ensures SPost(m, c, l, end, ExecElse(m.w, c.f, els, s, l.sp, fuel), fuel, k, l')
    decreases fuel, els, 1
  {
    hide *;
    ElifUnfold(m, c, els, end, l, s);
    ElifEval(m.w, c.f, els, s, l.sp, fuel);
    var o := ExecElse(m.w, c.f, els, s, l.sp, fuel);
    match els
    case NoElse =>
      StayMid(m, c, l, s);
      k, l' := 0, l;
      SFall(m, c, l, end, o, fuel, k, l', s);
    case ElseBlock(b) =>
      k, l' := SimAll(m, c, b, l, s, fuel);
    case Elif(e, b, rest) =>
      k, l' := SimExpr(m, c, e, 0, l, s, fuel);
      var r := Eval(m.w, c.f, e, s, l.sp, fuel);
      if !r.Ok? {
        PostFails(m, c, e, 0, l, s, fuel, k, l');
        SFail(m, c, l, end, r, o, fuel, k, l');
      } else {
        var (s1, a) := r.value;
        CondValue(c.f, s1, a);
        if Value(c.f, s1, a).Undef? {
          SUndef(m, c, l, end, o, fuel, k, l');
        } else {
          var l1 := CondJump(m, c, e, l, s, fuel, k, l', l.ip + Len(e) + 1 + LenAll(b) + 1, true);
          MidReady(m, c, l, s, k + 1, l1, s1, 0);
          if Value(c.f, s1, a).value.0 != 0 {
            k, l' := SimBranch(m, c, els, end, l, s, fuel, k + 1, l1, s1);
          } else {
            MkEPre(m, c, rest, end, l1, s1);
            var k2, l2 := SimElse(m, c, rest, end, l1, s1, fuel);
            SChain(m, c, l, k + 1, l1, s1, end, o, fuel, fuel, k2, l2);
            k, l' := k + 1 + k2, l2;
          }
        }
      }
  }

  /** A taken branch and the jump to the end of the conditional. */
  lemma SimBranch(m: Image, c: Ctx, els: Else, end: nat, l: Local, s: St, fuel: nat, k: nat, l1: Local, s1: St)
    returns (k': nat, l': Local)
    requires EPre(m, c, els, end, l, s) && els.Elif?
    requires Mid(m, c, l, k, l1, s1, 0) && l1.ip == l.ip + Len(els.c) + 1
    requires ExecElse(m.w, c.f, els, s, l.sp, fuel) == ExecAll(m.w, c.f, els.body, s1, l.sp, fuel)
    ensures SPost(m, c, l, end, ExecElse(m.w, c.f, els, s, l.sp, fuel), fuel, k', l')
    decreases fuel, els, 0
  {
    hide *;
    ElifUnfold(m, c, els, end, l, s);
    MidReady(m, c, l, s, k, l1, s1, 0);
    MkAPre(m, c, els.body, l1, s1);
    var bend := l1.ip + LenAll(els.body);
    var k2, l2 := SimAll(m, c, els.body, l1, s1, fuel);
    var q := ExecAll(m.w, c.f, els.body, s1, l.sp, fuel);
    SChain(m, c, l, k, l1, s1, bend, q, fuel, fuel, k2, l2);
    k', l' := k + k2, l2;
    SOpen(m, c, l, bend, q, fuel, k', l');
    if !q.Ok? {
      SFail(m, c, l, end, q, q, fuel, k', l');
    } else if q.value.1.Returned? {
      SReturned(m, c, l, end, q, fuel, k', l', q.value.0, q.value.1.v);
    } else {
      JmpIs(m, l2, end);
      GotoMid(m, c, l, k', l2, q.value.0, 0, end);
      k', l' := k' + 1, l2.(ip := end);
      SFall(m, c, l, end, q, fuel, k', l', q.value.0);
    }
  }
}
