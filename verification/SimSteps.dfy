/** One instruction against one operator: the last instruction of every expression form does to the
    machine state what the operator does to the source state. */
module SimSteps {
  import opened Options
  import opened Bytes
  import opened Words
  import opened Ast
  import opened Layout
  import opened Insn
  import opened Machine
  import opened Codegen
  import opened Source
  import opened SimBase

  ghost predicate SimDo(m: Image, c: Ctx, l: Local, l': Local, out: Outcome<(St, Res)>,
                        o: Opd, et: ETy, tk: nat, t: nat, t': nat) {
    out.Ok? ==>
      && Machine.Step(m.code, l, m.fill) == Next(l') && l'.ip == l.ip + 1
      && Match(c, l', out.value.0) && Keep(c.frame, l, l', tk)
      && Denotes(c, l', out.value.1, o, et, t, t')
  }

  // What each handler does once its operands are known to be readable.

  lemma StepMovIs(m: Image, l: Local, dst: Opd, src: Opd)
    requires At(m.code, l.ip, Mov(dst, src)) && InBounds(l, src) && dst.size == src.size
    ensures Machine.Step(m.code, l, m.fill) == Machine.Store(l, true, dst, Some(Get(l, src)))
  {
  }

  lemma StepBinIs(m: Image, l: Local, op: ArithOp, dst: Opd, a: Opd, b: Opd, p: nat)
    requires At(m.code, l.ip, Bin(op, dst, a, b)) && InBounds(l, a) && InBounds(l, b)
    requires dst.signd == a.signd == b.signd && IsWord(dst.size) && dst.size == a.size == b.size
    requires Alu(op, dst.signd, dst.size, Get(l, a), Get(l, b)) == Some(p)
    ensures Machine.Step(m.code, l, m.fill) == Machine.Store(l, true, dst, Some(p))
  {
    hide Alu;
  }

  lemma StepCmpIs(m: Image, l: Local, op: CmpOp, dst: Opd, a: Opd, b: Opd)
    requires At(m.code, l.ip, CmpI(op, dst, a, b)) && InBounds(l, a) && InBounds(l, b)
    requires !dst.signd && dst.size == 1 && a.signd == b.signd && IsWord(a.size) && a.size == b.size
    ensures Machine.Step(m.code, l, m.fill)
            == Machine.Store(l, true, dst, Some(AluCmp(op, a.signd, a.size, Get(l, a), Get(l, b))))
  {
    hide AluCmp;
  }

  lemma StepUnIs(m: Image, l: Local, op: UnOp, dst: Opd, src: Opd)
    requires At(m.code, l.ip, Un(op, dst, src)) && InBounds(l, src) && UnLegal(op, dst, src)
    ensures Machine.Step(m.code, l, m.fill) == Machine.Store(l, true, dst, Some(AluUn(op, src, Get(l, src))))
  {
    hide AluUn;
  }

  lemma StepCastIs(m: Image, l: Local, dst: Opd, src: Opd)
    requires At(m.code, l.ip, CastI(dst, src)) && InBounds(l, src)
    ensures Machine.Step(m.code, l, m.fill)
            == Machine.Store(l, true, dst, Some(CastPat(src.size, dst.size, Get(l, src))))
  {
    hide CastPat;
  }

  lemma StepIncDecIs(m: Image, l: Local, up: bool, dst: Opd)
    requires At(m.code, l.ip, IncDec(up, dst)) && InBounds(l, dst) && IsWord(dst.size)
    ensures Machine.Step(m.code, l, m.fill) == Machine.Store(l, true, dst, Some(Bump(up, dst, Get(l, dst))))
  {
    hide Bump;
  }

  lemma StepIncDecPIs(m: Image, l: Local, up: bool, dst: Opd, src: Opd)
    requires At(m.code, l.ip, IncDecP(up, dst, src)) && Writable(l, src) && Writable(l, dst)
    requires IsWord(dst.size) && dst.signd == src.signd && dst.size == src.size
    ensures Machine.Step(m.code, l, m.fill)
            == Next(Advance(Set(Set(l, src, Bump(up, src, Get(l, src))), dst, Get(l, src))))
  {
    hide Bump;
  }

  lemma BumpPat(ty: Ty, o: Opd, v: int, up: bool)
    requires ty.Holds(v) && o.size == ty.Size() && o.signd == ty.Signed() && Fit(ty, v + Step1(up)).Some?
    ensures Bump(up, o, ty.Pat(v)) == ty.Pat(Fit(ty, v + Step1(up)).value)
  {
    FitPat(ty, v + Step1(up));
    RoundTrip(ty.Signed(), ty.Size(), v);
  }

  /** Writing a computed word into a variable. */
  lemma ToVar(m: Image, c: Ctx, l: Local, s: St, x: nat, v: int, t: nat, t': nat)
    returns (l': Local)
    requires Wf(c) && Match(c, l, s) && Scalar(c.f, x) && Declared(c.f, x) && VarTy(c, x).Holds(v) && t <= t' <= |l.temps[0]|
    requires Machine.Step(m.code, l, m.fill) == Machine.Store(l, true, VarOpd(c, x), Some(VarTy(c, x).Pat(v)))
    ensures SimDo(m, c, l, l', Ok((s.(vars := s.vars[x := v]), RVar(x))), VarOpd(c, x), TInt(VarTy(c, x)), t', t, t')
  {
    hide Machine.Step;
    SlotFacts(c, x);
    l' := PutVar(c, l, s, x, v, t');
  }

  /** Writing a computed word of type ty into a fresh temporary. */
  lemma ToTemp(m: Image, c: Ctx, l: Local, s: St, t: nat, ty: Ty, v: int)
    returns (l': Local)
    requires Wf(c) && Match(c, l, s) && ty.Holds(v) && AllocEnd(t, ty.Size()) <= |l.temps[0]|
    requires Machine.Step(m.code, l, m.fill) == Machine.Store(l, true, TempAt(t, ty), Some(ty.Pat(v)))
    ensures SimDo(m, c, l, l', Ok((s, RVal(v, ty))), TempAt(t, ty), TInt(ty), t, t, AllocEnd(t, ty.Size()))
  {
    hide Machine.Step;
    l' := PutTemp(c, l, s, t, ty, v);
  }

  lemma DoAssignSim(m: Image, c: Ctx, l: Local, s: St, x: nat, b: Res, src: Opd, t: nat, t': nat)
    returns (l': Local)
    requires Wf(c) && Match(c, l, s) && Scalar(c.f, x) && Declared(c.f, x) && t <= t' <= |l.temps[0]|
    requires Denotes(c, l, b, src, TInt(VarTy(c, x)), t, t')
    requires At(m.code, l.ip, Mov(VarOpd(c, x), src))
    ensures SimDo(m, c, l, l', DoAssign(c.f, x, s, b), VarOpd(c, x), TInt(VarTy(c, x)), t', t, t')
  {
    l' := l;
    hide Machine.Step, Match, Keep, Denotes, Wf, CastPat, Scalar;
    if DoAssign(c.f, x, s, b).Ok? {
      ReadOpd(c, l, s, b, src, TInt(VarTy(c, x)), t, t');
      SlotFacts(c, x);
      StepMovIs(m, l, VarOpd(c, x), src);
      l' := ToVar(m, c, l, s, x, Value(c.f, s, b).value.0, t, t');
    }
  }

  lemma DoAssignOpSim(m: Image, c: Ctx, l: Local, s: St, op: ArithOp, x: nat, b: Res, src: Opd, et: ETy, t: nat, t': nat)
    returns (l': Local)
    requires Wf(c) && Match(c, l, s) && Modifiable(c.f, x) && t <= t' <= |l.temps[0]|
    requires BinOk(op, TInt(VarTy(c, x)), et) && Denotes(c, l, b, src, et, t, t')
    requires At(m.code, l.ip, Bin(op, VarOpd(c, x), VarOpd(c, x), src))
    ensures SimDo(m, c, l, l', DoAssignOp(c.f, op, x, s, RVar(x), b), VarOpd(c, x), TInt(VarTy(c, x)), t', t, t')
  {
    l' := l;
    hide Machine.Step, Match, Keep, SrcArith, Alu, Wf;
    if DoAssignOp(c.f, op, x, s, RVar(x), b).Ok? {
      SlotFacts(c, x);
      ReadOpd(c, l, s, b, src, et, t, t');
      ReadOpd(c, l, s, RVar(x), VarOpd(c, x), TInt(VarTy(c, x)), t, t');
      var v, d := Value(c.f, s, RVar(x)).value, Value(c.f, s, b).value;
      AluIsSrcArith(op, v.1, v.0, d.0);
      var r := Operate(op, v, d).value;
      StepBinIs(m, l, op, VarOpd(c, x), VarOpd(c, x), src, v.1.Pat(r));
      l' := ToVar(m, c, l, s, x, r, t, t');
    }
  }

  lemma DoArithSim(m: Image, c: Ctx, l: Local, s: St, op: ArithOp, a: Res, b: Res, oa: Opd, ob: Opd,
                   ta: ETy, tb: ETy, t: nat, t1: nat, t2: nat)
    returns (l': Local)
    requires Wf(c) && Match(c, l, s)
    requires BinOk(op, ta, tb) && Denotes(c, l, a, oa, ta, t, t1) && Denotes(c, l, b, ob, tb, t1, t2)
    requires AllocEnd(t2, ta.ty.Size()) <= |l.temps[0]|
    requires At(m.code, l.ip, Bin(op, TempAt(t2, ta.ty), oa, ob))
    ensures SimDo(m, c, l, l', DoArith(c.f, op, s, a, b), TempAt(t2, ta.ty), ta, t2, t2, AllocEnd(t2, ta.ty.Size()))
  {
    l' := l;
    hide Machine.Step, Match, Keep, SrcArith, Alu, Wf;
    if DoArith(c.f, op, s, a, b).Ok? {
      ReadOpd(c, l, s, a, oa, ta, t, t1);
      ReadOpd(c, l, s, b, ob, tb, t1, t2);
      var x, y := Value(c.f, s, a).value, Value(c.f, s, b).value;
      AluIsSrcArith(op, x.1, x.0, y.0);
      var r := Operate(op, x, y).value;
      StepBinIs(m, l, op, TempAt(t2, ta.ty), oa, ob, x.1.Pat(r));
      l' := ToTemp(m, c, l, s, t2, ta.ty, r);
    }
  }

  lemma DoCmpSim(m: Image, c: Ctx, l: Local, s: St, op: CmpOp, a: Res, b: Res, oa: Opd, ob: Opd,
                 ta: ETy, tb: ETy, t: nat, t1: nat, t2: nat)
    returns (l': Local)
    requires Wf(c) && Match(c, l, s)
    requires BinOk(Add, ta, tb) && Denotes(c, l, a, oa, ta, t, t1) && Denotes(c, l, b, ob, tb, t1, t2)
    requires AllocEnd(t2, 1) <= |l.temps[0]|
    requires At(m.code, l.ip, CmpI(op, TempAt(t2, U8), oa, ob))
    ensures SimDo(m, c, l, l', DoCmp(c.f, op, s, a, b), TempAt(t2, U8), TInt(U8), t2, t2, AllocEnd(t2, 1))
  {
    l' := l;
    hide Machine.Step, Match, Keep, SrcCmp, AluCmp, Denotes, Wf, Scalar;
    if DoCmp(c.f, op, s, a, b).Ok? {
      ReadOpd(c, l, s, a, oa, ta, t, t1);
      ReadOpd(c, l, s, b, ob, tb, t1, t2);
      var x, y := Value(c.f, s, a).value, Value(c.f, s, b).value;
      AluIsSrcCmp(op, ta.ty.Signed(), ta.ty.Size(), x.0, y.0);
      BoolPat(op, x.0, y.0);
      StepCmpIs(m, l, op, TempAt(t2, U8), oa, ob);
      l' := ToTemp(m, c, l, s, t2, U8, SrcCmp(op, x.0, y.0));
    }
  }

  lemma BoolPat(op: CmpOp, x: int, y: int)
    ensures U8.Holds(SrcCmp(op, x, y)) && U8.Pat(SrcCmp(op, x, y)) == SrcCmp(op, x, y)
  {
    assert Pow256(1) == 256;
  }

  lemma SmallPat(ty: Ty, b: bool)
    ensures ty.Holds(if b then 1 else 0) && ty.Pat(if b then 1 else 0) == if b then 1 else 0
  {
    Pow256Mono(1, ty.Size());
    assert Pow256(1) == 256;
  }

  lemma DoCastSim(m: Image, c: Ctx, l: Local, s: St, to: Ty, a: Res, oa: Opd, ta: ETy, t: nat, t1: nat)
    returns (l': Local)
    requires Wf(c) && Match(c, l, s) && ta.TInt? && Denotes(c, l, a, oa, ta, t, t1)
    requires AllocEnd(t1, to.Size()) <= |l.temps[0]|
    requires At(m.code, l.ip, CastI(TempAt(t1, to), oa))
    ensures SimDo(m, c, l, l', DoCast(c.f, to, s, a), TempAt(t1, to), TInt(to), t1, t1, AllocEnd(t1, to.Size()))
  {
    l' := l;
    hide Machine.Step, Match, Keep, Denotes, Wf, CastPat, Scalar;
    if DoCast(c.f, to, s, a).Ok? {
      ReadOpd(c, l, s, a, oa, ta, t, t1);
      var v := Value(c.f, s, a).value;
      StepCastIs(m, l, TempAt(t1, to), oa);
      l' := ToTemp(m, c, l, s, t1, to, SrcCast(v.1, to, v.0));
    }
  }

  lemma DoMinusSim(m: Image, c: Ctx, l: Local, s: St, a: Res, oa: Opd, ta: ETy, t: nat, t1: nat)
    returns (l': Local)
    requires Wf(c) && Match(c, l, s) && ta.TInt? && Denotes(c, l, a, oa, ta, t, t1)
    requires AllocEnd(t1, ta.ty.Size()) <= |l.temps[0]|
    requires At(m.code, l.ip, Un(NegOp, TempAt(t1, ta.ty.Negated()), oa))
    ensures SimDo(m, c, l, l', DoMinus(c.f, s, a), TempAt(t1, ta.ty.Negated()), TInt(ta.ty.Negated()), t1, t1,
                  AllocEnd(t1, ta.ty.Size()))
  {
    l' := l;
    hide Machine.Step, Match, Keep, Minus, Denotes, Wf, Scalar;
    if DoMinus(c.f, s, a).Ok? {
      ReadOpd(c, l, s, a, oa, ta, t, t1);
      var v := Value(c.f, s, a).value;
      MinusPat(v);
      StepUnIs(m, l, NegOp, TempAt(t1, ta.ty.Negated()), oa);
      l' := ToTemp(m, c, l, s, t1, ta.ty.Negated(), Minus(v).value);
    }
  }

  lemma MinusPat(v: (int, Ty))
    requires v.1.Holds(v.0) && Minus(v).Ok?
    ensures v.1.Negated().Pat(Minus(v).value)
            == FromInt(v.1.Size(), -ToInt(v.1.Signed(), v.1.Size(), v.1.Pat(v.0)))
  {
    RoundTrip(v.1.Signed(), v.1.Size(), v.0);
    FitPat(v.1, -v.0);
    ToIntInRange(true, v.1.Size(), FromInt(v.1.Size(), -v.0));
  }

  lemma DoNotSim(m: Image, c: Ctx, l: Local, s: St, a: Res, oa: Opd, ta: ETy, t: nat, t1: nat)
    returns (l': Local)
    requires Wf(c) && Match(c, l, s) && ta.TInt? && Denotes(c, l, a, oa, ta, t, t1)
    requires AllocEnd(t1, ta.ty.Size()) <= |l.temps[0]|
    requires At(m.code, l.ip, Un(NotOp, TempAt(t1, ta.ty), oa))
    ensures SimDo(m, c, l, l', DoNot(c.f, s, a), TempAt(t1, ta.ty), ta, t1, t1, AllocEnd(t1, ta.ty.Size()))
  {
    l' := l;
    hide Machine.Step, Match, Keep, Denotes, Wf, CastPat, Scalar;
    if DoNot(c.f, s, a).Ok? {
      ReadOpd(c, l, s, a, oa, ta, t, t1);
      var v := Value(c.f, s, a).value;
      PatZero(v.1.Signed(), v.1.Size(), v.0);
      SmallPat(v.1, v.0 == 0);
      StepUnIs(m, l, NotOp, TempAt(t1, ta.ty), oa);
      l' := ToTemp(m, c, l, s, t1, ta.ty, if v.0 == 0 then 1 else 0);
    }
  }

  lemma ComplementIs(f: Func, s: St, a: Res)
    requires DoComplement(f, s, a).Ok?
    ensures Value(f, s, a).Ok? && !Value(f, s, a).value.1.Signed()
    ensures var v := Value(f, s, a).value; DoComplement(f, s, a).value == (s, RVal(Complement(v), v.1))
  {
    hide Value, Complement;
  }

  lemma DoComplementSim(m: Image, c: Ctx, l: Local, s: St, a: Res, oa: Opd, ta: ETy, t: nat, t1: nat)
    returns (l': Local)
    requires Wf(c) && Match(c, l, s) && ta.TInt? && !ta.ty.Signed() && Denotes(c, l, a, oa, ta, t, t1)
    requires AllocEnd(t1, ta.ty.Size()) <= |l.temps[0]|
    requires At(m.code, l.ip, Un(BnegOp, TempAt(t1, ta.ty), oa))
    ensures SimDo(m, c, l, l', DoComplement(c.f, s, a), TempAt(t1, ta.ty), ta, t1, t1, AllocEnd(t1, ta.ty.Size()))
  {
    l' := l;
    hide Machine.Step, Match, Keep, Denotes, Wf, CastPat, Scalar, DoComplement, Value, AllocEnd;
    if DoComplement(c.f, s, a).Ok? {
      ComplementIs(c.f, s, a);
      ReadOpd(c, l, s, a, oa, ta, t, t1);
      var v := Value(c.f, s, a).value;
      UnsignedPat(v.1, v.0);
      UnsignedPat(v.1, Complement(v));
      StepUnIs(m, l, BnegOp, TempAt(t1, ta.ty), oa);
      l' := ToTemp(m, c, l, s, t1, ta.ty, Complement(v));
    }
  }

  /** OZ normalises a word to 0 or 1 in the given byte temporary. */
  lemma DoTruthSim(m: Image, c: Ctx, l: Local, s: St, a: Res, oa: Opd, ta: ETy, t: nat, t1: nat, td: nat)
    returns (l': Local)
    requires Wf(c) && Match(c, l, s) && ta.TInt? && Denotes(c, l, a, oa, ta, t, t1)
    requires AllocEnd(td, 1) <= |l.temps[0]|
    requires At(m.code, l.ip, Un(OzOp, TempAt(td, U8), oa))
    ensures SimDo(m, c, l, l', DoTruth(c.f, s, a), TempAt(td, U8), TInt(U8), td, td, AllocEnd(td, 1))
  {
    l' := l;
    hide Machine.Step, Match, Keep, Denotes, Wf, CastPat, Scalar;
    if DoTruth(c.f, s, a).Ok? {
      ReadOpd(c, l, s, a, oa, ta, t, t1);
      var v := Value(c.f, s, a).value;
      PatZero(v.1.Signed(), v.1.Size(), v.0);
      SmallPat(U8, v.0 != 0);
      StepUnIs(m, l, OzOp, TempAt(td, U8), oa);
      l' := ToTemp(m, c, l, s, td, U8, if v.0 != 0 then 1 else 0);
    }
  }

  lemma DoSelectSim(m: Image, c: Ctx, l: Local, s: St, b: Res, ob: Opd, ty: Ty, t: nat, t1: nat, td: nat)
    returns (l': Local)
    requires Wf(c) && Match(c, l, s) && Denotes(c, l, b, ob, TInt(ty), t, t1)
    requires AllocEnd(td, ty.Size()) <= |l.temps[0]|
    requires At(m.code, l.ip, Mov(TempAt(td, ty), ob))
    ensures SimDo(m, c, l, l', DoSelect(c.f, s, b), TempAt(td, ty), TInt(ty), td, td, AllocEnd(td, ty.Size()))
  {
    l' := l;
    hide Machine.Step, Match, Keep, Denotes, Wf, CastPat, Scalar;
    if DoSelect(c.f, s, b).Ok? {
      ReadOpd(c, l, s, b, ob, TInt(ty), t, t1);
      StepMovIs(m, l, TempAt(td, ty), ob);
      l' := ToTemp(m, c, l, s, td, ty, Value(c.f, s, b).value.0);
    }
  }

  lemma DoPreSim(m: Image, c: Ctx, l: Local, s: St, up: bool, x: nat, t: nat)
    returns (l': Local)
    requires Wf(c) && Match(c, l, s) && Modifiable(c.f, x) && t <= |l.temps[0]|
    requires At(m.code, l.ip, IncDec(up, VarOpd(c, x)))
    ensures SimDo(m, c, l, l', DoBump(c.f, up, x, false, s), VarOpd(c, x), TInt(VarTy(c, x)), t, t, t)
  {
    l' := l;
    hide Machine.Step, Match, Keep, Bump, Fit, Wf;
    if DoBump(c.f, up, x, false, s).Ok? {
      SlotFacts(c, x);
      ReadOpd(c, l, s, RVar(x), VarOpd(c, x), TInt(VarTy(c, x)), t, t);
      var v := Value(c.f, s, RVar(x)).value;
      BumpPat(v.1, VarOpd(c, x), v.0, up);
      StepIncDecIs(m, l, up, VarOpd(c, x));
      l' := ToVar(m, c, l, s, x, Fit(v.1, v.0 + Step1(up)).value, t, t);
    }
  }

  /** The instruction pointer plays no part in the relation. */
  lemma SkipIp(c: Ctx, l: Local, l1: Local, s: St, r: Res, o: Opd, et: ETy, t: nat, t': nat, ip: nat)
    requires Match(c, l1, s) && Keep(c.frame, l, l1, t) && Denotes(c, l1, r, o, et, t, t')
    ensures var l2 := l1.(ip := ip);
      Match(c, l2, s) && Keep(c.frame, l, l2, t) && Denotes(c, l2, r, o, et, t, t')
  {
    forall y | y in s.vars ensures Holds(c, l1.(ip := ip), y, s.vars[y]) {
      assert Holds(c, l1, y, s.vars[y]);
    }
  }

  lemma PostSteps(m: Image, c: Ctx, l: Local, up: bool, x: nat, t: nat, ty: Ty, v: int)
    requires Writable(l, VarOpd(c, x)) && Writable(l, TempAt(t, ty))
    requires Get(l, VarOpd(c, x)) == ty.Pat(v) && VarOpd(c, x).Auto?
    requires VarOpd(c, x).size == ty.Size() && VarOpd(c, x).signd == ty.Signed()
    requires At(m.code, l.ip, IncDecP(up, TempAt(t, ty), VarOpd(c, x)))
    ensures var l1 := Advance(Set(l, VarOpd(c, x), Bump(up, VarOpd(c, x), ty.Pat(v))));
      && Writable(l1, TempAt(t, ty))
      && Machine.Step(m.code, l, m.fill) == Next(Set(l1, TempAt(t, ty), ty.Pat(v)).(ip := l.ip + 1))
  {
    StepIncDecPIs(m, l, up, TempAt(t, ty), VarOpd(c, x));
  }

  /** A variable as an operand, and what a bump makes of it. */
  lemma BumpFacts(c: Ctx, l: Local, s: St, up: bool, x: nat, post: bool, t: nat)
    requires Wf(c) && Match(c, l, s) && Modifiable(c.f, x) && DoBump(c.f, up, x, post, s).Ok?
    ensures Scalar(c.f, x) && Declared(c.f, x) && Denotes(c, l, RVar(x), VarOpd(c, x), TInt(VarTy(c, x)), t, t)
    ensures Value(c.f, s, RVar(x)).Ok?
    ensures var v := Value(c.f, s, RVar(x)).value;
      && Fit(v.1, v.0 + Step1(up)).Some?
      && DoBump(c.f, up, x, post, s).value ==
           (s.(vars := s.vars[x := Fit(v.1, v.0 + Step1(up)).value]), if post then RVal(v.0, v.1) else RVar(x))
  {
    SlotFacts(c, x);
    hide Wf, Match, Fit;
  }

  lemma DoPostSim(m: Image, c: Ctx, l: Local, s: St, up: bool, x: nat, t: nat)
    returns (l': Local)
    requires Wf(c) && Match(c, l, s) && Modifiable(c.f, x) && AllocEnd(t, VarTy(c, x).Size()) <= |l.temps[0]|
    requires At(m.code, l.ip, IncDecP(up, TempAt(t, VarTy(c, x)), VarOpd(c, x)))
    ensures SimDo(m, c, l, l', DoBump(c.f, up, x, true, s), TempAt(t, VarTy(c, x)), TInt(VarTy(c, x)), t, t,
                  AllocEnd(t, VarTy(c, x).Size()))
  {
    l' := l;
    hide Machine.Step, Match, Keep, Bump, Fit, Wf, DoBump, Value, Denotes, Read;
    if DoBump(c.f, up, x, true, s).Ok? {
      BumpFacts(c, l, s, up, x, true, t);
      SlotFacts(c, x);
      ReadOpd(c, l, s, RVar(x), VarOpd(c, x), TInt(VarTy(c, x)), t, t);
      var v := Value(c.f, s, RVar(x)).value;
      BumpPat(v.1, VarOpd(c, x), v.0, up);
      var l1 := PutVar(c, l, s, x, Fit(v.1, v.0 + Step1(up)).value, t);
      var s1 := DoBump(c.f, up, x, true, s).value.0;
      var l2 := PutTemp(c, l1, s1, t, v.1, v.0);
      l' := l2.(ip := l.ip + 1);
      KeepTrans(c.frame, l, l1, l2, t, t);
      SkipIp(c, l, l2, s1, RVal(v.0, v.1), TempAt(t, v.1), TInt(v.1), t, AllocEnd(t, v.1.Size()), l.ip + 1);
      PostSteps(m, c, l, up, x, t, v.1, v.0);
    }
  }
}
