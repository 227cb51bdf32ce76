/** Call expressions: entering the callee and coming back to the caller. */
module SimReturns {
  import opened Options
  import opened Bytes
  import opened Words
  import opened Ast
  import opened Layout
  import opened Insn
  import opened Machine
  import opened Codegen
  import opened Source
  import opened SimBase
  import opened SimSteps
  import opened SimGlue
  import opened Shapes
  import opened SimCalls
  import opened SimStmts

  lemma CallTypes(c: Ctx, e: Expr)
    requires e.Call? && !TypeOf(c.p, c.f, e).TErr?
    ensures e.g < |c.p| && ArgsOk(c.p, c.f, e.args, c.p[e.g], 0)
    ensures c.p[e.g].ret.Some? ==> TypeOf(c.p, c.f, e) == TInt(c.p[e.g].ret.value) && ValTy(c, e) == c.p[e.g].ret.value
    ensures c.p[e.g].ret.None? ==> TypeOf(c.p, c.f, e) == TVoid
    ensures HasValue(c, e) <==> c.p[e.g].ret.Some?
  {
    hide ArgsOk;
  }

  lemma CallTemps(c: Ctx, e: Expr, t: nat)
    requires e.Call?
    ensures IsWord(8) && U64.Size() == 8
    ensures var t1 := AllocEnd(t, 8);
      var t2 := TempEndArgs(c, e.args, t1);
      && t <= t1 <= t2 <= TempEnd(c, e, t) <= Peak(c, e, t)
      && PeakArgs(c, e.args, t1) <= Peak(c, e, t)
      && Len(e) == LenArgs(e.args) + 2
      && (HasValue(c, e) ==> TempEnd(c, e, t) == AllocEnd(t2, ValTy(c, e).Size()) && ResOpd(c, e, t) == TempAt(t2, ValTy(c, e)))
  {
    hide TypeOf;
  }

  lemma CallEval(w: World, f: Func, e: Expr, s: St, sp: nat, fuel: nat)
    requires e.Call? && e.g < |w.prog| && e.g < |w.locals|
    ensures var o := Eval(w, f, e, s, sp, fuel);
      if sp + 16 > w.cap then o.Overflow?
      else
        var q := EvalArgs(w, f, e.args, s, sp + 16, fuel);
        if !q.Ok? then Kind(o) == Kind(q)
        else if fuel == 0 then o.Timeout?
        else
          var (s1, vals, sp') := q.value;
          var b := EvalBody(w, e.g, vals, s1.noint, s1.passed, sp', fuel - 1);
          if !b.Ok? then Kind(o) == Kind(b)
          else o == Ok((St(s1.vars, b.value.noint, b.value.passed), RetRes(w.prog[e.g], b.value.v)))
  {
    hide EvalArgs, EvalBody;
  }

  lemma ImageFacts(m: Image, c: Ctx, g: nat)
    requires Compiled(m) && Within(m, c) && g < |c.p|
    ensures c.p == m.w.prog && g < |m.w.prog| && g < |m.w.locals| && g < |m.locs| && g < |c.fns|
    ensures c.fns[g] == Imm(false, m.locs[g], 8) && m.locs[g] < |m.code| < Pow256(8)
    ensures m.w.cap < Pow256(8) && m.w.cap % 8 == 0
  {
    hide FrameLay, PlacedF, StmtsOk, Wf;
    assert FuncPlaced(m, g);
  }

  // ---------- up to the call instruction ----------

  /** PUSHR has run and the arguments are pushed. */
  ghost predicate Prepared(m: Image, c: Ctx, e: Expr, t: nat, l: Local, k: nat, l2: Local, s1: St, vals: seq<int>) {
    && e.Call? && e.g < |c.p|
    && Runs(m, l, k, l2) && Match(c, l2, s1) && Grow(c.frame, l, l2, t)
    && Saved(l2, l.sp, l2.ip, l.bp, TempAt(t, U64))
    && l2.ip == l.ip + 1 + LenArgs(e.args) && l2.sp == l.sp + 16 + 8 * |vals|
    && |vals| == c.p[e.g].params && Pushed(l2.stack, l.sp + 16, vals, c.p[e.g], 0)
  }

  lemma SavedKept(c: Ctx, l1: Local, l2: Local, at: nat, q: nat, bp: nat, t: nat, t1: nat)
    requires Saved(l1, at, q, bp, TempAt(t, U64)) && Grow(c.frame, l1, l2, t1)
    requires l1.bp + c.frame <= at && at + 16 <= l1.sp && IsWord(8) && AllocEnd(t, 8) <= t1
    ensures Saved(l2, at, q, bp, TempAt(t, U64))
  {
    ReadAgree(l1.stack, l2.stack, l1.bp + c.frame, l1.sp, at, 8);
    ReadAgree(l1.stack, l2.stack, l1.bp + c.frame, l1.sp, at + 8, 8);
    assert l1.temps[0][0..t1] == l2.temps[0][0..t1] by {
      assert l1.temps[0][0..t1] == l1.temps[0][..t1] && l2.temps[0][0..t1] == l2.temps[0][..t1];
    }
    ReadAgree(l1.temps[0], l2.temps[0], 0, t1, AlignUp(t, 8), 8);
  }

  /** From PUSHR over the arguments. */
  lemma Prepare(m: Image, c: Ctx, e: Expr, t: nat, l: Local, s: St, fuel: nat, l1: Local, k2: nat, l2: Local)
    requires Pre(m, c, e, t, l, s) && e.Call? && e.g < |c.p| && IsWord(8)
    requires Machine.Step(m.code, l, m.fill) == Next(l1) && l1.ip == l.ip + 1 && l1.sp == l.sp + 16
    requires Match(c, l1, s) && Grow(c.frame, l, l1, t)
    requires Saved(l1, l.sp, l.ip + 1 + LenArgs(e.args), l.bp, TempAt(t, U64))
    requires ArgsPost(m, c, e.args, c.p[e.g], 0, AllocEnd(t, 8), l1, s, fuel, k2, l2)
    requires EvalArgs(m.w, c.f, e.args, s, l1.sp, fuel).Ok?
    ensures var out := EvalArgs(m.w, c.f, e.args, s, l1.sp, fuel).value;
      Prepared(m, c, e, t, l, 1 + k2, l2, out.0, out.1) && out.2 == l2.sp && |l2.stack| == |l.stack|
  {
    hide *;
    ArgsOpen(m, c, e.args, c.p[e.g], 0, AllocEnd(t, 8), l1, s, fuel, k2, l2);
    Here(m, c, e, t, l, s);
    Extend(m, l, 0, l, l1);
    ChainRuns(m, l, 1, l1, k2, l2);
    GrowTrans(c.frame, l, l1, l2, t, AllocEnd(t, 8));
    FramedOf(c, l, s);
    GrowFacts(c.frame, l, l1, t);
    GrowFacts(c.frame, l1, l2, AllocEnd(t, 8));
    SavedKept(c, l1, l2, l.sp, l.ip + 1 + LenArgs(e.args), l.bp, t, AllocEnd(t, 8));
    var out := EvalArgs(m.w, c.f, e.args, s, l1.sp, fuel).value;
    MkPrepared(m, c, e, t, l, 1 + k2, l2, out.0, out.1);
  }

  lemma MkPrepared(m: Image, c: Ctx, e: Expr, t: nat, l: Local, k: nat, l2: Local, s1: St, vals: seq<int>)
    requires e.Call? && e.g < |c.p|
    requires Runs(m, l, k, l2) && Match(c, l2, s1) && Grow(c.frame, l, l2, t)
    requires Saved(l2, l.sp, l2.ip, l.bp, TempAt(t, U64))
    requires l2.ip == l.ip + 1 + LenArgs(e.args) && l2.sp == l.sp + 16 + 8 * |vals|
    requires |vals| == c.p[e.g].params && Pushed(l2.stack, l.sp + 16, vals, c.p[e.g], 0)
    ensures Prepared(m, c, e, t, l, k, l2, s1, vals)
  {
    hide Runs, Match, Grow, Saved, Pushed;
  }

  // ---------- the call instruction ----------

  lemma CallIs(m: Image, l: Local, fn: Opd, loc: nat, ssp: Opd)
    requires l.ip < |m.code| && fn == Imm(false, loc, 8) && loc < Pow256(8)
    requires m.code[l.ip] == CallI(fn, ssp) || (m.code[l.ip].CallV? && m.code[l.ip].fn == fn && m.code[l.ip].base == ssp)
    requires WordTemp(ssp) && InBounds(l, ssp)
    ensures Machine.Step(m.code, l, m.fill) == Next(l.(ip := loc, bp := Get(l, ssp)))
  {
  }

  lemma CallEnters(m: Image, c: Ctx, e: Expr, t: nat, l: Local, s: St, k: nat, l2: Local, s1: St, vals: seq<int>)
    returns (l3: Local)
    requires Pre(m, c, e, t, l, s) && Prepared(m, c, e, t, l, k, l2, s1, vals)
    ensures Machine.Step(m.code, l2, m.fill) == Next(l3) && Entry(m, e.g, l3, vals, s1.noint, s1.passed)
    ensures e.g < |m.locs| && l3 == l2.(ip := m.locs[e.g], bp := l.sp + 16)
  {
    hide *;
    PreReady(m, c, e, t, l, s);
    PreParts(m, c, e, t, l, s);
    PreparedParts(m, c, e, t, l, k, l2, s1, vals);
    FramedOf(c, l, s);
    FramedOf(c, l2, s1);
    GrowFacts(c.frame, l, l2, t);
    ImageFacts(m, c, e.g);
    CallPlaced(m.code, c, l.ip, t, e);
    AtIs(m.code, l2.ip, CallInsn(c, e, t));
    CallInsnIs(c, e, t);
    SspFacts(l2, l.sp, l2.ip, l.bp, t);
    CallIs(m, l2, c.fns[e.g], m.locs[e.g], TempAt(t, U64));
    l3 := l2.(ip := m.locs[e.g], bp := l.sp + 16);
    MkEntry(m, e.g, l3, vals, s1.noint, s1.passed);
  }

  lemma SspFacts(l: Local, at: nat, retip: nat, bp: nat, t: nat)
    requires Saved(l, at, retip, bp, TempAt(t, U64))
    ensures WordTemp(TempAt(t, U64)) && InBounds(l, TempAt(t, U64)) && Get(l, TempAt(t, U64)) == at + 16
  {
    hide Get, InBounds;
  }

  lemma MkEntry(m: Image, g: nat, l: Local, vals: seq<int>, noint: Flag, passed: Label)
    requires Compiled(m) && g < |m.w.prog| && g < |m.locs| && l.ip == m.locs[g] && |l.stack| == m.w.cap
    requires 16 <= l.bp && l.bp % 8 == 0 && l.sp == l.bp + 8 * |vals| && l.sp <= |l.stack|
    requires |vals| == m.w.prog[g].params && Pushed(l.stack, l.bp, vals, m.w.prog[g], 0)
    requires l.noint == noint && l.passed == passed
    ensures Entry(m, g, l, vals, noint, passed)
  {
    hide Compiled, Pushed;
  }

  lemma CallInsnIs(c: Ctx, e: Expr, t: nat)
    requires e.Call? && e.g < |c.fns|
    ensures CallInsn(c, e, t) == if HasValue(c, e) then CallV(ResOpd(c, e, t), c.fns[e.g], TempAt(t, U64))
                                 else CallI(c.fns[e.g], TempAt(t, U64))
  {
  }

  lemma PreReady(m: Image, c: Ctx, e: Expr, t: nat, l: Local, s: St)
    requires Pre(m, c, e, t, l, s)
    ensures Compiled(m) && Within(m, c) && |l.stack| == m.w.cap
  {
    hide Placed, TypeOf, Peak, Compiled, Within, Match;
  }

  // ---------- the return ----------

  /** The caller's state after the callee's frame is popped, before the value is delivered. */
  ghost function Back(l: Local, sp: nat, q: nat, bp: nat): Local
    requires l.temps != []
  {
    l.(sp := sp, ip := q, bp := bp, temps := l.temps[1..])
  }

  lemma ReturnIs(m: Image, c: Ctx, l: Local, v: Option<int>, sp: nat, q: nat, bp: nat)
    requires AtReturn(m, c, l, v) && l.sp == sp + 16 + c.frame && l.sp % 8 == 0 && l.bp % 8 == 0 && l.temps != []
    requires 0 < sp && sp + 16 <= |l.stack| && Read(l.stack, sp, 8) == q && Read(l.stack, sp + 8, 8) == bp
    requires q < |m.code| && bp <= |l.stack|
    requires v.Some? ==> m.code[q].CallV? && c.f.ret.Some? && m.code[q].dst.size == c.f.ret.value.Size()
                         && Writable(Back(l, sp, q, bp), m.code[q].dst)
    ensures Machine.Step(m.code, l, m.fill)
            == Next(Advance(if v.Some? then Set(Back(l, sp, q, bp), m.code[q].dst, c.f.ret.value.Pat(v.value))
                            else Back(l, sp, q, bp)))
  {
    hide Read, Set, Writable;
  }

  /** The caller finds its frame, its temporaries and its pushed words as it left them. */
  lemma BackInCaller(c: Ctx, l: Local, s: St, l2: Local, s1: St, l4: Local, t: nat, q: nat, s2: St)
    requires Wf(c) && Match(c, l, s) && Match(c, l2, s1) && Grow(c.frame, l, l2, t) && l.sp + 16 <= l2.sp
    requires |l4.stack| == |l2.stack| && l4.temps != [] && l4.temps[1..] == l2.temps
    requires l4.stack[..l.sp + 16] == l2.stack[..l.sp + 16]
    requires s2.vars == s1.vars && l4.noint == s2.noint && l4.passed == s2.passed
    ensures var b := Back(l4, l.sp, q, l.bp);
      Match(c, b, s2) && Keep(c.frame, l, b, t) && b.temps == l2.temps
  {
    hide Wf, Holds;
    var b := Back(l4, l.sp, q, l.bp);
    Prefix(l4.stack, l2.stack, l.sp + 16, l.bp, l.bp + c.frame);
    Prefix(l4.stack, l2.stack, l.sp + 16, l.bp + c.frame, l.sp);
    MatchKept(c, l2, b, s1, s2);
  }

  lemma ReturningParts(m: Image, g: nat, l: Local, k: nat, l': Local, ret: Ret)
    requires Returning(m, g, l, k, l', ret)
    ensures g < |m.w.prog| && DeclsOk(m.w.prog[g])
    ensures Runs(m, l, k, l') && AtReturn(m, FuncCtx(m, g), l', ret.v)
    ensures l'.noint == ret.noint && l'.passed == ret.passed
    ensures l'.bp == l.bp && l'.sp == l.bp + FuncCtx(m, g).frame && l'.sp <= |l'.stack| == |l.stack|
    ensures l'.sp % 8 == 0 && l'.bp % 8 == 0
    ensures l.bp <= |l.stack| && l'.stack[..l.bp] == l.stack[..l.bp] && l'.temps != [] && l'.temps[1..] == l.temps
  {
    hide FuncCtx, DeclsOk, AtReturn, Runs;
  }

  lemma SavedParts(l: Local, at: nat, retip: nat, bp: nat, ssp: Opd)
    requires Saved(l, at, retip, bp, ssp)
    ensures at + 16 <= |l.stack| && Read(l.stack, at, 8) == retip && Read(l.stack, at + 8, 8) == bp
  {
    hide Read;
  }

  lemma PreparedParts(m: Image, c: Ctx, e: Expr, t: nat, l: Local, k: nat, l2: Local, s1: St, vals: seq<int>)
    requires Prepared(m, c, e, t, l, k, l2, s1, vals)
    ensures e.Call? && e.g < |c.p| && Runs(m, l, k, l2) && Match(c, l2, s1) && Grow(c.frame, l, l2, t)
    ensures Saved(l2, l.sp, l2.ip, l.bp, TempAt(t, U64))
    ensures l2.ip == l.ip + 1 + LenArgs(e.args) && l2.sp == l.sp + 16 + 8 * |vals|
    ensures |vals| == c.p[e.g].params && Pushed(l2.stack, l.sp + 16, vals, c.p[e.g], 0)
  {
    hide Runs, Match, Grow, Saved, Pushed;
  }

  lemma SavedElsewhere(a: Mem, b: Mem, at: nat)
    requires at + 16 <= |a| == |b| && a[..at + 16] == b[..at + 16]
    ensures Read(a, at, 8) == Read(b, at, 8) && Read(a, at + 8, 8) == Read(b, at + 8, 8)
  {
    assert a[0..at + 16] == a[..at + 16] && b[0..at + 16] == b[..at + 16];
    ReadAgree(a, b, 0, at + 16, at, 8);
    ReadAgree(a, b, 0, at + 16, at + 8, 8);
  }

  lemma AtReturnTypes(m: Image, c: Ctx, l: Local, v: Option<int>)
    requires AtReturn(m, c, l, v)
    ensures v.Some? <==> c.f.ret.Some?
    ensures v.Some? ==> c.f.ret.value.Holds(v.value)
  {
    hide Delivers;
  }

  /** The return instruction, seen from the caller: the next state continues after the call. */
  lemma CallReturns(m: Image, c: Ctx, e: Expr, t: nat, l: Local, s: St, k: nat, l2: Local, s1: St, vals: seq<int>,
                    l3: Local, k3: nat, l4: Local, ret: Ret)
    returns (l5: Local)
    requires Pre(m, c, e, t, l, s) && Prepared(m, c, e, t, l, k, l2, s1, vals)
    requires l3.stack == l2.stack && l3.temps == l2.temps && l3.bp == l.sp + 16
    requires Returning(m, e.g, l3, k3, l4, ret)
    ensures e.g < |c.p|
    ensures var s2 := St(s1.vars, ret.noint, ret.passed);
      && Machine.Step(m.code, l4, m.fill) == Next(l5) && l5.ip == l.ip + Len(e)
      && Match(c, l5, s2) && Keep(c.frame, l, l5, t)
      && Denotes(c, l5, RetRes(c.p[e.g], ret.v), ResOpd(c, e, t), TypeOf(c.p, c.f, e), t, TempEnd(c, e, t))
  {
    hide *;
    var s2 := St(s1.vars, ret.noint, ret.passed);
    PreReady(m, c, e, t, l, s);
    PreParts(m, c, e, t, l, s);
    PreparedParts(m, c, e, t, l, k, l2, s1, vals);
    CallTypes(c, e);
    CallTemps(c, e, t);
    CallPlaced(m.code, c, l.ip, t, e);
    ImageFacts(m, c, e.g);
    ReturningParts(m, e.g, l3, k3, l4, ret);
    FuncCtxFields(m, e.g);
    SavedParts(l2, l.sp, l2.ip, l.bp, TempAt(t, U64));
    SavedElsewhere(l4.stack, l2.stack, l.sp);
    FramedOf(c, l, s);
    GrowFacts(c.frame, l, l2, t);
    BackInCaller(c, l, s, l2, s1, l4, t, l2.ip, s2);
    AtReturnTypes(m, FuncCtx(m, e.g), l4, ret.v);
    AtIs(m.code, l2.ip, CallInsn(c, e, t));
    CallInsnIs(c, e, t);
    var b := Back(l4, l.sp, l2.ip, l.bp);
    BackIs(l4, l.sp, l2.ip, l.bp);
    if ret.v.Some? {
      var t2, ty, v := TempEndArgs(c, e.args, AllocEnd(t, 8)), ValTy(c, e), ret.v.value;
      l5 := PutTemp(c, b, s2, t2, ty, v);
      TempAtIs(t2, ty);
      ReturnIs(m, FuncCtx(m, e.g), l4, ret.v, l.sp, l2.ip, l.bp);
      KeepTrans(c.frame, l, b, l5, t, t2);
      DeliveredIs(c, e, t, b, l5, ret.v, t2, ty);
    } else {
      ReturnIs(m, FuncCtx(m, e.g), l4, ret.v, l.sp, l2.ip, l.bp);
      l5 := Advance(b);
      AdvanceIs(c, l, b, s2, t);
      VoidIs(c, e, l5, t);
    }
  }

  lemma BackIs(l: Local, sp: nat, q: nat, bp: nat)
    requires l.temps != []
    ensures Back(l, sp, q, bp).ip == q && Back(l, sp, q, bp).temps == l.temps[1..]
  {
  }

  lemma TempAtIs(t: nat, ty: Ty)
    ensures TempAt(t, ty).size == ty.Size()
  {
  }

  lemma AdvanceIs(c: Ctx, l: Local, b: Local, s: St, t: nat)
    requires Match(c, b, s) && Keep(c.frame, l, b, t)
    ensures Match(c, Advance(b), s) && Keep(c.frame, l, Advance(b), t) && Advance(b).ip == b.ip + 1
  {
    forall y | y in s.vars ensures Holds(c, Advance(b), y, s.vars[y]) {
      assert Holds(c, b, y, s.vars[y]);
    }
  }

  lemma VoidIs(c: Ctx, e: Expr, l: Local, t: nat)
    requires e.Call? && e.g < |c.p| && c.p[e.g].ret.None? && TypeOf(c.p, c.f, e) == TVoid
    ensures Denotes(c, l, RetRes(c.p[e.g], None), ResOpd(c, e, t), TypeOf(c.p, c.f, e), t, TempEnd(c, e, t))
  {
  }

  lemma DeliveredIs(c: Ctx, e: Expr, t: nat, b: Local, l5: Local, v: Option<int>, t2: nat, ty: Ty)
    requires e.Call? && e.g < |c.p| && v.Some? && c.p[e.g].ret == Some(ty) && TypeOf(c.p, c.f, e) == TInt(ty)
    requires ty.Holds(v.value) && Writable(b, TempAt(t2, ty)) && t <= t2
    requires l5 == Advance(Set(b, TempAt(t2, ty), ty.Pat(v.value)))
    requires Denotes(c, l5, RVal(v.value, ty), TempAt(t2, ty), TInt(ty), t2, AllocEnd(t2, ty.Size()))
    requires ResOpd(c, e, t) == TempAt(t2, ty) && TempEnd(c, e, t) == AllocEnd(t2, ty.Size())
    ensures Denotes(c, l5, RetRes(c.p[e.g], v), ResOpd(c, e, t), TypeOf(c.p, c.f, e), t, TempEnd(c, e, t))
    ensures l5.ip == b.ip + 1
  {
    hide Set, Get, TypeOf, ResOpd, TempEnd;
    SetIp(b, TempAt(t2, ty), ty.Pat(v.value));
  }

  lemma SetIp(l: Local, o: Opd, v: nat)
    requires Writable(l, o)
    ensures Set(l, o, v).ip == l.ip
  {
  }

  /** The whole call, put together. */
  lemma CallDone(m: Image, c: Ctx, e: Expr, t: nat, l: Local, s: St, fuel: nat, k: nat, l2: Local, s1: St, vals: seq<int>,
                 l3: Local, k3: nat, l4: Local, ret: Ret, l5: Local)
    requires Prepared(m, c, e, t, l, k, l2, s1, vals) && Machine.Step(m.code, l2, m.fill) == Next(l3)
    requires Returning(m, e.g, l3, k3, l4, ret) && Machine.Step(m.code, l4, m.fill) == Next(l5)
    requires e.Call? && e.g < |c.p| && l5.ip == l.ip + Len(e)
    requires var s2 := St(s1.vars, ret.noint, ret.passed);
      && Match(c, l5, s2) && Keep(c.frame, l, l5, t)
      && Denotes(c, l5, RetRes(c.p[e.g], ret.v), ResOpd(c, e, t), TypeOf(c.p, c.f, e), t, TempEnd(c, e, t))
      && Eval(m.w, c.f, e, s, l.sp, fuel) == Ok((s2, RetRes(c.p[e.g], ret.v)))
    ensures Post(m, c, e, t, l, s, fuel, k + 1 + k3 + 1, l5)
  {
    hide *;
    PreparedParts(m, c, e, t, l, k, l2, s1, vals);
    ReturningParts(m, e.g, l3, k3, l4, ret);
    Extend(m, l, k, l2, l3);
    ChainRuns(m, l, k + 1, l3, k3, l4);
    Extend(m, l, k + 1 + k3, l4, l5);
    MkMid(m, c, l, k + 1 + k3 + 1, l5, St(s1.vars, ret.noint, ret.passed), t);
    MkPost(m, c, e, t, l, s, fuel, k + 1 + k3 + 1, l5, St(s1.vars, ret.noint, ret.passed), RetRes(c.p[e.g], ret.v),
           t, TempEnd(c, e, t));
  }

  lemma MkMid(m: Image, c: Ctx, l: Local, k: nat, l': Local, s': St, t: nat)
    requires Runs(m, l, k, l') && Match(c, l', s') && Keep(c.frame, l, l', t)
    ensures Mid(m, c, l, k, l', s', t)
  {
  }

  /** A call that fails before or inside the callee. */
  lemma CallFails<T>(m: Image, c: Ctx, e: Expr, t: nat, l: Local, s: St, fuel: nat, k: nat, l1: Local,
                     part: Outcome<T>, fuel1: nat, k2: nat, l': Local)
    requires Runs(m, l, k, l1) && !part.Ok? && SimFail(m, l1, k2, Kind(part), fuel1) && fuel <= fuel1 + k
    requires Kind(Eval(m.w, c.f, e, s, l.sp, fuel)) == Kind(part)
    ensures Post(m, c, e, t, l, s, fuel, k + k2, l')
  {
    hide Eval, Run;
    Chain(m, l, k, l1, k2);
  }

  lemma CallTimeout(m: Image, c: Ctx, e: Expr, t: nat, l: Local, s: St, k: nat, l1: Local, l': Local)
    requires Runs(m, l, k, l1) && Eval(m.w, c.f, e, s, l.sp, 0).Timeout?
    ensures Post(m, c, e, t, l, s, 0, k, l')
  {
    hide Eval, Run;
  }

  lemma CallOverflow(m: Image, c: Ctx, e: Expr, t: nat, l: Local, s: St, fuel: nat, l': Local)
    requires Eval(m.w, c.f, e, s, l.sp, fuel).Overflow? && Machine.Step(m.code, l, m.fill) == Illegal
    ensures Post(m, c, e, t, l, s, fuel, 1, l')
  {
    hide Eval, Machine.Step;
  }

  lemma MkArgsPre(m: Image, c: Ctx, args: Args, g: Func, i: nat, t: nat, l: Local, s: St)
    requires Ready(m, c, l, s) && l.temps != []
    requires PlacedArgs(m.code, c, l.ip, t, args) && ArgsOk(c.p, c.f, args, g, i) && PeakArgs(c, args, t) <= |l.temps[0]|
    ensures ArgsPre(m, c, args, g, i, t, l, s)
  {
    hide Ready, PlacedArgs, ArgsOk, PeakArgs;
  }

  lemma MkReady(m: Image, c: Ctx, l: Local, s: St)
    requires Compiled(m) && Within(m, c) && Match(c, l, s) && |l.stack| == m.w.cap
    ensures Ready(m, c, l, s)
  {
  }

  // ---------- the body ----------

  lemma MkReturning(m: Image, g: nat, l: Local, l1: Local, s: St, k: nat, l': Local, s': St, ret: Ret)
    requires g < |m.w.prog| && DeclsOk(m.w.prog[g])
    requires Machine.Step(m.code, l, m.fill) == Next(l1)
    requires l1.bp == l.bp && l1.temps != [] && l1.temps[1..] == l.temps && l1.stack == l.stack
    requires l1.sp == l.bp + FuncCtx(m, g).frame
    requires Mid(m, FuncCtx(m, g), l1, k, l', s', 0) && AtReturn(m, FuncCtx(m, g), l', ret.v)
    requires ret.noint == s'.noint && ret.passed == s'.passed
    ensures Returning(m, g, l, 1 + k, l', ret)
  {
    hide FuncCtx, DeclsOk, AtReturn, Holds, Machine.Step;
    assert Runs(m, l, 0, l);
    Extend(m, l, 0, l, l1);
    ChainRuns(m, l, 1, l1, k, l');
  }

  lemma EnteredIs(c: Ctx, l: Local, locals: nat, fill: Fill)
    ensures var l1 := Entered(c, l, locals, fill);
      l1.bp == l.bp && l1.temps != [] && l1.temps[1..] == l.temps && l1.stack == l.stack && l1.ip == l.ip + 1
  {
  }

  lemma MkBodyPost(m: Image, g: nat, l: Local, vals: seq<int>, noint: Flag, passed: Label, fuel: nat, k: nat, l': Local,
                   ret: Ret)
    requires g < |m.w.prog| && g < |m.w.locals| && EvalBody(m.w, g, vals, noint, passed, l.sp, fuel) == Ok(ret)
    requires Returning(m, g, l, k, l', ret)
    ensures BodyPost(m, g, l, vals, noint, passed, fuel, k, l')
  {
    hide EvalBody, Returning;
  }

  lemma BodyFails(m: Image, g: nat, l: Local, vals: seq<int>, noint: Flag, passed: Label, fuel: nat, k: nat, l': Local)
    requires g < |m.w.prog| && g < |m.w.locals|
    requires var o := EvalBody(m.w, g, vals, noint, passed, l.sp, fuel); !o.Ok? && SimFail(m, l, k, Kind(o), fuel)
    ensures BodyPost(m, g, l, vals, noint, passed, fuel, k, l')
  {
    hide EvalBody, SimFail;
  }

  lemma BodyOpen(m: Image, g: nat, l: Local, vals: seq<int>, noint: Flag, passed: Label, fuel: nat, k: nat, l': Local)
    requires BodyPost(m, g, l, vals, noint, passed, fuel, k, l')
    ensures g < |m.w.prog| && g < |m.w.locals|
    ensures var out := EvalBody(m.w, g, vals, noint, passed, l.sp, fuel);
       if out.Ok? then Returning(m, g, l, k, l', out.value) else SimFail(m, l, k, Kind(out), fuel)
  {
    hide EvalBody, SimFail, Returning;
  }

  lemma FailStep(m: Image, l: Local, l1: Local, k: nat, kind: Failure, fuel: nat)
    requires Machine.Step(m.code, l, m.fill) == Next(l1) && SimFail(m, l1, k, kind, fuel)
    ensures SimFail(m, l, 1 + k, kind, fuel)
  {
    hide Machine.Step;
    assert Runs(m, l, 0, l);
    Extend(m, l, 0, l, l1);
    ChainFail(m, l, 1, l1, k, kind, fuel);
  }

  lemma MkOverflow(m: Image, l: Local, fuel: nat)
    requires Machine.Step(m.code, l, m.fill) == Illegal
    ensures SimFail(m, l, 1, StackOverflow, fuel)
  {
  }

  lemma MkAtReturnVoid(m: Image, c: Ctx, l: Local)
    requires At(m.code, l.ip, RetI(c.frame + 16)) && c.f.ret.None?
    ensures AtReturn(m, c, l, None)
  {
  }

  /** The return address is an instruction of the image, hence a word. */
  lemma PushRTarget(m: Image, c: Ctx, e: Expr, t: nat, p: nat)
    requires e.Call? && Placed(m.code, c, p, t, e) && |m.code| < Pow256(8)
    ensures p + 1 + LenArgs(e.args) < Pow256(8)
  {
    CallPlaced(m.code, c, p, t, e);
    hide Placed, LenArgs, Pow256;
  }

  lemma ReadyParts(m: Image, c: Ctx, l: Local, s: St)
    requires Ready(m, c, l, s)
    ensures Compiled(m) && Within(m, c) && |l.stack| == m.w.cap && |l.stack| % 8 == 0
    ensures l.sp % 8 == 0
  {
    hide Within, ProgramOk, FuncPlaced;
  }

  lemma OverflowKind<T>(o: Outcome<T>)
    requires o.Overflow?
    ensures Kind(o) == StackOverflow
  {
  }

  lemma UndefFail<T>(m: Image, l: Local, k: nat, fuel: nat, o: Outcome<T>)
    requires o.Undef?
    ensures SimFail(m, l, k, Kind(o), fuel)
  {
  }
}
