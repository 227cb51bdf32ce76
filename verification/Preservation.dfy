/** The main results about code generation: what running a compiled function means. */
module Preservation {
  import opened Options
  import opened Bytes
  import opened Words
  import opened Ast
  import opened Layout
  import opened Insn
  import opened Machine
  import opened Codegen
  import opened Source
  import opened SimBase
  import opened SimGlue
  import opened SimCalls
  import opened SimStmts
  import opened SimReturns
  import opened Simulation
  import Soundness

  /** A virtual machine as QNT or exec leaves it: about to run function g, nothing below its frame. */
  ghost predicate Started(m: Image, g: nat, l: Local, vals: seq<int>) {
    Entry(m, g, l, vals, l.noint, l.passed) && l.bp == 16 && l.temps == []
  }

  /** What the source promises for the same call, given enough fuel. */
  ghost function Means(m: Image, g: nat, l: Local, vals: seq<int>, fuel: nat): Outcome<Ret>
    requires g < |m.w.prog| && g < |m.w.locals|
  {
    EvalBody(m.w, g, vals, l.noint, l.passed, l.sp, fuel)
  }

  /** No undefined behaviour, however long the program runs. */
  ghost predicate Defined(m: Image, g: nat, l: Local, vals: seq<int>)
    requires g < |m.w.prog| && g < |m.w.locals|
  {
    forall fuel: nat :: !Means(m, g, l, vals, fuel).Undef?
  }

  /** The machine has stopped because its outermost frame returned what the source returns. */
  ghost predicate Delivered(m: Image, g: nat, n: Next, ret: Ret)
    requires g < |m.w.prog|
  {
    && n.Finished? && n.l.sp == 0 && n.l.noint == ret.noint && n.l.passed == ret.passed
    && match ret.v
       case None => m.w.prog[g].ret.None? && n.size == 0
       case Some(v) =>
         && m.w.prog[g].ret.Some? && m.w.prog[g].ret.value.Holds(v)
         && n.size == m.w.prog[g].ret.value.Size() && n.val == m.w.prog[g].ret.value.Pat(v)
  }

  lemma StartedParts(m: Image, g: nat, l: Local, vals: seq<int>)
    requires Started(m, g, l, vals)
    ensures Entry(m, g, l, vals, l.noint, l.passed) && l.bp == 16 && l.temps == []
    ensures g < |m.w.prog| && g < |m.w.locals| && DeclsOk(m.w.prog[g])
  {
    hide Entry;
    EntryFacts(m, g, l, vals, l.noint, l.passed);
  }

  /** The return of the outermost frame. */
  lemma OutermostReturn(m: Image, c: Ctx, l: Local, v: Option<int>, g: nat, ret: Ret)
    requires AtReturn(m, c, l, v) && l.sp == 16 + c.frame && l.sp % 8 == 0 && l.bp % 8 == 0 && l.temps != []
    requires g < |m.w.prog| && c.f == m.w.prog[g] && ret.v == v && l.noint == ret.noint && l.passed == ret.passed
    ensures Delivered(m, g, Machine.Step(m.code, l, m.fill), ret)
  {
    hide Read;
  }

  /** A returning body makes the machine finish with the value's pattern. */
  lemma BodyFinishes(m: Image, g: nat, l: Local, vals: seq<int>, fuel: nat) returns (k: nat)
    requires Started(m, g, l, vals) && g < |m.w.prog| && g < |m.w.locals| && Means(m, g, l, vals, fuel).Ok?
    ensures Delivered(m, g, Run(m.code, l, k, m.fill), Means(m, g, l, vals, fuel).value)
  {
    hide *;
    StartedParts(m, g, l, vals);
    MeansIs(m, g, l, vals, fuel);
    var k1, l1 := SimBody(m, g, l, vals, l.noint, l.passed, fuel);
    BodyOpen(m, g, l, vals, l.noint, l.passed, fuel, k1, l1);
    var ret := Means(m, g, l, vals, fuel).value;
    ReturningParts(m, g, l, k1, l1, ret);
    FuncCtxFields(m, g);
    OutermostReturn(m, FuncCtx(m, g), l1, ret.v, g, ret);
    Chain(m, l, k1, l1, 1);
    OneStep(m, l1);
    DeliveredStops(m, g, Machine.Step(m.code, l1, m.fill), ret);
    k := k1 + 1;
  }

  lemma MeansIs(m: Image, g: nat, l: Local, vals: seq<int>, fuel: nat)
    requires g < |m.w.prog| && g < |m.w.locals|
    ensures Means(m, g, l, vals, fuel) == EvalBody(m.w, g, vals, l.noint, l.passed, l.sp, fuel)
  {
    hide EvalBody;
  }

  lemma OneStep(m: Image, l: Local)
    ensures Run(m.code, l, 1, m.fill) == Machine.Step(m.code, l, m.fill)
  {
    hide Machine.Step;
    var n := Machine.Step(m.code, l, m.fill);
    if n.Next? {
      assert Run(m.code, n.l, 0, m.fill) == n;
    }
  }

  lemma DeliveredStops(m: Image, g: nat, n: Next, ret: Ret)
    requires g < |m.w.prog| && Delivered(m, g, n, ret)
    ensures n.Finished?
  {
  }

  /** A body that does not return: the machine rejects the push that overflows, or runs at least as long as the fuel. */
  lemma BodyFailsToReturn(m: Image, g: nat, l: Local, vals: seq<int>, fuel: nat) returns (k: nat)
    requires Started(m, g, l, vals) && g < |m.w.prog| && g < |m.w.locals|
    ensures Means(m, g, l, vals, fuel).Overflow? ==> Run(m.code, l, k, m.fill) == Illegal
    ensures Means(m, g, l, vals, fuel).Timeout? ==> k >= fuel && Run(m.code, l, k, m.fill).Next?
  {
    StartedParts(m, g, l, vals);
    hide Started, Entry, Run, EvalBody;
    var k1, l1 := SimBody(m, g, l, vals, l.noint, l.passed, fuel);
    BodyOpen(m, g, l, vals, l.noint, l.passed, fuel, k1, l1);
    k := k1;
  }

  /** A machine still running after j instructions was running after every smaller number. */
  lemma StillRunning(m: Image, l: Local, i: nat, j: nat)
    requires i <= j && Run(m.code, l, j, m.fill).Next?
    ensures Run(m.code, l, i, m.fill).Next?
  {
    hide Run;
    if !Run(m.code, l, i, m.fill).Next? {
      RunStopped(m.code, l, i, j, m.fill);
    }
  }

  /** Two stopped observations of one run agree. */
  lemma StopsOnce(m: Image, l: Local, i: nat, j: nat)
    requires !Run(m.code, l, i, m.fill).Next? && !Run(m.code, l, j, m.fill).Next?
    ensures Run(m.code, l, i, m.fill) == Run(m.code, l, j, m.fill)
  {
    hide Run;
    if i <= j {
      RunStopped(m.code, l, i, j, m.fill);
    } else {
      RunStopped(m.code, l, j, i, m.fill);
    }
  }

  /** A call of a checked program with well-typed arguments never goes wrong for a typing reason, and a function with
      a type returns a value of it. */
  lemma WellTypedCalls(m: Image, g: nat, l: Local, vals: seq<int>, fuel: nat)
    requires Started(m, g, l, vals) && g < |m.w.prog| && g < |m.w.locals|
    ensures Means(m, g, l, vals, fuel) != Undef(IllTyped)
    ensures Means(m, g, l, vals, fuel).Ok? ==> Soundness.ReturnOk(m.w.prog[g], Means(m, g, l, vals, fuel).value.v)
  {
    hide *;
    StartedArgs(m, g, l, vals);
    MeansIs(m, g, l, vals, fuel);
    Soundness.BodySound(m.w, g, vals, l.noint, l.passed, l.sp, fuel);
    WellTypedIs(Means(m, g, l, vals, fuel));
  }

  lemma WellTypedIs(out: Outcome<Ret>)
    ensures Soundness.WellTyped(out) <==> out != Undef(IllTyped)
  {
  }

  lemma StartedArgs(m: Image, g: nat, l: Local, vals: seq<int>)
    requires Started(m, g, l, vals) && g < |m.w.prog|
    ensures Soundness.WorldOk(m.w) && |vals| == m.w.prog[g].params && Soundness.ArgsHold(m.w.prog[g], 0, vals)
  {
    hide FuncPlaced, DeclsOk, Scalar, StmtsOk, Read;
    assert FuncOk(m.w.prog, m.w.prog[g]);
    ParamsInRange(m.w.prog[g]);
    forall k | 0 <= k < |vals| ensures Soundness.ArgHolds(m.w.prog[g], 0 + k, vals[k]) {
      assert PushedWord(l.stack, l.bp + 8 * k, m.w.prog[g], 0 + k, vals[k]);
    }
  }

  lemma ParamsInRange(f: Func)
    requires DeclsOk(f)
    ensures f.params <= |f.vars|
  {
  }

  /** Whatever the machine has done after k instructions, the source does it with fuel k + 1 at most:
      the machine is still running, or it has delivered the source's value, or both overflow the stack, unless
      the program has by then read an uninitialised variable, applied an operation that has no result, or left a
      function that returns a value without one. */
  lemma EveryRunIsExplained(m: Image, g: nat, l: Local, vals: seq<int>, k: nat)
    requires Started(m, g, l, vals) && g < |m.w.prog| && g < |m.w.locals|
    ensures var n, out := Run(m.code, l, k, m.fill), Means(m, g, l, vals, k + 1);
      || n.Next?
      || (out.Ok? && Delivered(m, g, n, out.value))
      || (out.Overflow? && n == Illegal)
      || (out.Undef? && out.why != IllTyped)
  {
    hide Run, Means, Delivered, Started;
    var n, out := Run(m.code, l, k, m.fill), Means(m, g, l, vals, k + 1);
    if !n.Next? {
      if out.Ok? {
        var k1 := BodyFinishes(m, g, l, vals, k + 1);
        DeliveredStops(m, g, Run(m.code, l, k1, m.fill), out.value);
        StopsOnce(m, l, k, k1);
      } else if out.Undef? {
        WellTypedCalls(m, g, l, vals, k + 1);
      } else {
        var k1 := BodyFailsToReturn(m, g, l, vals, k + 1);
        if out.Overflow? {
          StopsOnce(m, l, k, k1);
        } else {
          StillRunning(m, l, k, k1);
        }
      }
    }
  }

  /** Equal results come from equal values: the pattern determines the value of a type. */
  lemma DeliveredUnique(m: Image, g: nat, n: Next, a: Ret, b: Ret)
    requires g < |m.w.prog| && Delivered(m, g, n, a) && Delivered(m, g, n, b)
    ensures a == b
  {
    if a.v.Some? && b.v.Some? {
      var ty := m.w.prog[g].ret.value;
      PatInjective(ty.Signed(), ty.Size(), a.v.value, b.v.value);
    }
  }

  lemma DefinedAt(m: Image, g: nat, l: Local, vals: seq<int>, fuel: nat)
    requires g < |m.w.prog| && g < |m.w.locals| && Defined(m, g, l, vals)
    ensures !Means(m, g, l, vals, fuel).Undef?
  {
    hide Means;
  }

  /** The machine finishes with a value exactly when the source returns it. */
  lemma ReturnsExactly(m: Image, g: nat, l: Local, vals: seq<int>, ret: Ret)
    requires Started(m, g, l, vals) && g < |m.w.prog| && g < |m.w.locals| && Defined(m, g, l, vals)
    ensures (exists fuel: nat :: Means(m, g, l, vals, fuel) == Ok(ret))
            <==> (exists k: nat :: Delivered(m, g, Run(m.code, l, k, m.fill), ret))
  {
    hide Run, Means, Delivered, Started, Defined;
    if fuel: nat :| Means(m, g, l, vals, fuel) == Ok(ret) {
      var k := BodyFinishes(m, g, l, vals, fuel);
    }
    if k: nat :| Delivered(m, g, Run(m.code, l, k, m.fill), ret) {
      EveryRunIsExplained(m, g, l, vals, k);
      DefinedAt(m, g, l, vals, k + 1);
      DeliveredStops(m, g, Run(m.code, l, k, m.fill), ret);
      DeliveredUnique(m, g, Run(m.code, l, k, m.fill), ret, Means(m, g, l, vals, k + 1).value);
    }
  }

  /** The machine is stopped as illegal exactly when the source outgrows the stack. */
  lemma OverflowsExactly(m: Image, g: nat, l: Local, vals: seq<int>)
    requires Started(m, g, l, vals) && g < |m.w.prog| && g < |m.w.locals| && Defined(m, g, l, vals)
    ensures (exists fuel: nat :: Means(m, g, l, vals, fuel).Overflow?)
            <==> (exists k: nat :: Run(m.code, l, k, m.fill) == Illegal)
  {
    hide Run, Means, Started, Defined;
    if fuel: nat :| Means(m, g, l, vals, fuel).Overflow? {
      var k := BodyFailsToReturn(m, g, l, vals, fuel);
    }
    if k: nat :| Run(m.code, l, k, m.fill) == Illegal {
      EveryRunIsExplained(m, g, l, vals, k);
      DefinedAt(m, g, l, vals, k + 1);
      if Means(m, g, l, vals, k + 1).Ok? {
        DeliveredStops(m, g, Illegal, Means(m, g, l, vals, k + 1).value);
      }
    }
  }

  /** The machine runs forever exactly when the source never finishes. */
  lemma DivergesExactly(m: Image, g: nat, l: Local, vals: seq<int>)
    requires Started(m, g, l, vals) && g < |m.w.prog| && g < |m.w.locals| && Defined(m, g, l, vals)
    ensures (forall fuel: nat :: Means(m, g, l, vals, fuel).Timeout?) <==> (forall k: nat :: Run(m.code, l, k, m.fill).Next?)
  {
    hide Run, Means, Delivered, Started;
    if forall fuel: nat :: Means(m, g, l, vals, fuel).Timeout? {
      forall k: nat ensures Run(m.code, l, k, m.fill).Next? {
        EveryRunIsExplained(m, g, l, vals, k);
        assert Means(m, g, l, vals, k + 1).Timeout?;
      }
    } else {
      var fuel: nat :| !Means(m, g, l, vals, fuel).Timeout?;
      assert !Means(m, g, l, vals, fuel).Undef?;
      if Means(m, g, l, vals, fuel).Ok? {
        var k := BodyFinishes(m, g, l, vals, fuel);
        DeliveredStops(m, g, Run(m.code, l, k, m.fill), Means(m, g, l, vals, fuel).value);
      } else {
        var k := BodyFailsToReturn(m, g, l, vals, fuel);
      }
    }
  }

  /** A run of a compiled checked program goes wrong only where the source does, and never for a typing reason: the
      one rejection left is a push or a frame that does not fit on the stack. */
  lemma NothingGoesWrong(m: Image, g: nat, l: Local, vals: seq<int>, k: nat)
    requires Started(m, g, l, vals) && g < |m.w.prog| && g < |m.w.locals|
    ensures var n, out := Run(m.code, l, k, m.fill), Means(m, g, l, vals, k + 1);
      && (n == Fault || n == External ==> out.Undef? && out.why != IllTyped)
      && (n == Illegal ==> out.Overflow? || (out.Undef? && out.why != IllTyped))
      && (Defined(m, g, l, vals) ==> !out.Undef?)
  {
    hide Run, Means, Started, Defined;
    EveryRunIsExplained(m, g, l, vals, k);
    if Means(m, g, l, vals, k + 1).Ok? && !Run(m.code, l, k, m.fill).Next? {
      DeliveredStops(m, g, Run(m.code, l, k, m.fill), Means(m, g, l, vals, k + 1).value);
    }
    if Defined(m, g, l, vals) {
      DefinedAt(m, g, l, vals, k + 1);
    }
  }

  /** Temporary non-interference: an expression evaluated with the allocator at t leaves every temporary below t,
      where the enclosing expressions keep their operands, and delivers its value in the operand the generator
      announced: a variable, a constant, or a temporary from t on and inside the function's block of temporaries. */
  lemma EvaluationIsContained(m: Image, c: Ctx, e: Expr, t: nat, l: Local, s: St, fuel: nat) returns (k: nat, l': Local)
    requires Pre(m, c, e, t, l, s) && Eval(m.w, c.f, e, s, l.sp, fuel).Ok?
    ensures Run(m.code, l, k, m.fill) == Next(l') && l'.ip == l.ip + Len(e)
    ensures l.temps != [] && l'.temps != [] && |l'.temps[0]| == |l.temps[0]|
    ensures t <= TempEnd(c, e, t) <= |l.temps[0]| && l'.temps[0][..t] == l.temps[0][..t]
    ensures var (s', r) := Eval(m.w, c.f, e, s, l.sp, fuel).value;
      Match(c, l', s') && Denotes(c, l', r, ResOpd(c, e, t), TypeOf(c.p, c.f, e), t, TempEnd(c, e, t))
  {
    hide Eval, Pre, Post, Match, Placed, Peak, TypeOf, Denotes, ResOpd, Run, Len;
    k, l' := SimExpr(m, c, e, t, l, s, fuel);
    Open(m, c, e, t, l, s, fuel, k, l');
    PreParts(m, c, e, t, l, s);
  }

  /** Stack discipline of a call expression, with calls nested in its arguments and in its callee to any depth:
      afterwards control stands behind the call, the stack pointer, the base pointer and the depth of the
      temporaries are as before, and so is every byte below the caller's frame and above it. */
  lemma CallsRestoreTheStack(m: Image, c: Ctx, e: Expr, t: nat, l: Local, s: St, fuel: nat) returns (k: nat, l': Local)
    requires Pre(m, c, e, t, l, s) && e.Call? && Eval(m.w, c.f, e, s, l.sp, fuel).Ok?
    ensures Run(m.code, l, k, m.fill) == Next(l') && l'.ip == l.ip + Len(e)
    ensures l'.sp == l.sp && l'.bp == l.bp && |l'.stack| == |l.stack| && l.bp + c.frame <= l.sp <= |l.stack|
    ensures l'.stack[..l.bp] == l.stack[..l.bp] && l'.stack[l.bp + c.frame..l.sp] == l.stack[l.bp + c.frame..l.sp]
    ensures |l'.temps| == |l.temps| && l.temps != [] && l'.temps[1..] == l.temps[1..]
  {
    hide Eval, Pre, Post, Match, Placed, Peak, TypeOf, Denotes, ResOpd, TempEnd, Run, Len;
    k, l' := SimExpr(m, c, e, t, l, s, fuel);
    Open(m, c, e, t, l, s, fuel, k, l');
    assert |l'.temps| == 1 + |l'.temps[1..]| && |l.temps| == 1 + |l.temps[1..]|;
  }
}
