/** Linking: references to functions become their locations.  Generated code refers to a function by an
    immediate of size 0; a pass over all operands replaces each by the function's location. */
module Linking {
  import opened Options
  import opened Words
  import opened Ast
  import opened Layout
  import opened Insn
  import opened Codegen
  import opened Shapes
  import opened Window
  import opened Emission
  import opened SimBase
  import opened SimGlue
  import opened SimCalls
  import opened SimReturns

  function LinkOpd(o: Opd, locs: seq<nat>): Opd {
    if o.Imm? && o.size == 0 && o.val < |locs| then Imm(o.signd, locs[o.val], 8) else o
  }

  function LinkInsn(i: Insn, locs: seq<nat>): Insn {
    match i
    case Mov(d, s) => Mov(LinkOpd(d, locs), LinkOpd(s, locs))
    case CastI(d, s) => CastI(LinkOpd(d, locs), LinkOpd(s, locs))
    case Bin(op, d, a, b) => Bin(op, LinkOpd(d, locs), LinkOpd(a, locs), LinkOpd(b, locs))
    case CmpI(op, d, a, b) => CmpI(op, LinkOpd(d, locs), LinkOpd(a, locs), LinkOpd(b, locs))
    case Un(op, d, s) => Un(op, LinkOpd(d, locs), LinkOpd(s, locs))
    case IncDec(up, d) => IncDec(up, LinkOpd(d, locs))
    case IncDecP(up, d, s) => IncDecP(up, LinkOpd(d, locs), LinkOpd(s, locs))
    case Jz(k, l) => Jz(LinkOpd(k, locs), l)
    case Jnz(k, l) => Jnz(LinkOpd(k, locs), l)
    case PushR(r, s) => PushR(r, LinkOpd(s, locs))
    case Push(s) => Push(LinkOpd(s, locs))
    case CallI(f, b) => CallI(LinkOpd(f, locs), LinkOpd(b, locs))
    case CallV(d, f, b) => CallV(LinkOpd(d, locs), LinkOpd(f, locs), LinkOpd(b, locs))
    case RetV(s, n) => RetV(LinkOpd(s, locs), n)
    case Rte(q) => Rte(LinkOpd(q, locs))
    case RteV(d, q) => RteV(LinkOpd(d, locs), LinkOpd(q, locs))
    case Qat(d, q, l) => Qat(LinkOpd(d, locs), LinkOpd(q, locs), l)
    case Wait(q, t, l, s, d) => Wait(LinkOpd(q, locs), LinkOpd(t, locs), l, s, d)
    case GetSp(d) => GetSp(LinkOpd(d, locs))
    case Qnt(d, f, b) => Qnt(LinkOpd(d, locs), LinkOpd(f, locs), LinkOpd(b, locs))
    case QntV(d, s) => QntV(LinkOpd(d, locs), LinkOpd(s, locs))
    case _ => i
  }

  function LinkCode(code: seq<Insn>, locs: seq<nat>): (r: seq<Insn>)
    ensures |r| == |code|
  {
    seq(|code|, i requires 0 <= i < |code| => LinkInsn(code[i], locs))
  }

  /** References as gen_name hands them out. */
  function Refs(n: nat): seq<Opd> {
    seq(n, i requires 0 <= i < n => Imm(false, i, 0))
  }

  ghost predicate Unlinked(c: Ctx, locs: seq<nat>) {
    Wf(c) && c.fns == Refs(|c.p|) && |locs| == |c.p|
  }

  function Resolved(c: Ctx, locs: seq<nat>): Ctx {
    c.(fns := LinkedFns(locs))
  }

  predicate Solid(o: Opd) {
    !o.Imm? || o.size > 0
  }

  lemma AtLinked(code: seq<Insn>, locs: seq<nat>, i: nat, insn: Insn)
    requires At(code, i, insn)
    ensures At(LinkCode(code, locs), i, LinkInsn(insn, locs))
  {
    hide LinkInsn;
  }

  // ---------- resolving references changes nothing else ----------

  lemma SameTypes(c: Ctx, locs: seq<nat>, e: Expr)
    ensures ValTy(Resolved(c, locs), e) == ValTy(c, e) && (HasValue(Resolved(c, locs), e) <==> HasValue(c, e))
    ensures forall x :: VarOpd(Resolved(c, locs), x) == VarOpd(c, x) && VarTy(Resolved(c, locs), x) == VarTy(c, x)
  {
    hide TypeOf, LinkedFns;
  }

  lemma AtomTemporaries(c: Ctx, e: Expr, t: nat)
    requires e.Num? || e.Bool? || e.Name? || e.UPlus? || e.PreInc? || e.PostInc? || e.Comma?
    ensures e.Num? || e.Bool? || e.Name? || e.PreInc? ==> TempEnd(c, e, t) == t && Peak(c, e, t) == t
    ensures e.Num? ==> ResOpd(c, e, t) == Imm(false, e.val, NumTy(e.val).Size())
    ensures e.Bool? ==> ResOpd(c, e, t) == Imm(false, if e.b then 1 else 0, 1)
    ensures e.Name? || e.PreInc? ==> ResOpd(c, e, t) == VarOpd(c, e.x)
    ensures e.UPlus? ==> TempEnd(c, e, t) == TempEnd(c, e.e, t) && Peak(c, e, t) == Peak(c, e.e, t) && ResOpd(c, e, t) == ResOpd(c, e.e, t)
    ensures e.PostInc? ==> TempEnd(c, e, t) == AllocEnd(t, VarTy(c, e.x).Size()) == Peak(c, e, t) && ResOpd(c, e, t) == TempAt(t, VarTy(c, e.x))
    ensures e.Comma? ==> TempEnd(c, e, t) == TempEnd(c, e.r, t) && Peak(c, e, t) == Max(Peak(c, e.l, t), Peak(c, e.r, t)) && ResOpd(c, e, t) == ResOpd(c, e.r, t)
  {
  }

  lemma {:induction false} SameTemps(c: Ctx, locs: seq<nat>, e: Expr, t: nat)
    ensures TempEnd(Resolved(c, locs), e, t) == TempEnd(c, e, t)
    ensures ResOpd(Resolved(c, locs), e, t) == ResOpd(c, e, t)
    ensures Peak(Resolved(c, locs), e, t) == Peak(c, e, t)
    decreases e
  {
    hide *;
    var c' := Resolved(c, locs);
    SameTypes(c, locs, e);
    if e.Num? || e.Bool? || e.Name? || e.UPlus? || e.PreInc? || e.PostInc? || e.Comma? {
      AtomTemporaries(c, e, t);
      AtomTemporaries(c', e, t);
      if e.UPlus? {
        SameTemps(c, locs, e.e, t);
      } else if e.Comma? {
        SameTemps(c, locs, e.l, t);
        SameTemps(c, locs, e.r, t);
      }
    } else if e.Assign? || e.AssignOp? {
      AssignTemporaries(c, e, t);
      AssignTemporaries(c', e, t);
      SameTemps(c, locs, e.rhs, t);
    } else if e.Cast? || e.UMinus? || e.LNot? || e.BNot? {
      UnaryTemporaries(c, e, t);
      UnaryTemporaries(c', e, t);
      SameTemps(c, locs, e.e, t);
    } else if e.Arith? || e.Cmp? {
      PairTemporaries(c, e, t);
      PairTemporaries(c', e, t);
      SameTemps(c, locs, e.l, t);
      SameTemps(c, locs, e.r, TempEnd(c, e.l, t));
    } else if e.Conj? || e.Disj? {
      LogicTemporaries(c, e, t);
      LogicTemporaries(c', e, t);
      SameTemps(c, locs, e.l, t);
      SameTemps(c, locs, e.r, AllocEnd(TempEnd(c, e.l, t), 1));
    } else if e.Tern? {
      TernTemporaries(c, e, t);
      TernTemporaries(c', e, t);
      SameTemps(c, locs, e.c, t);
      SameTemps(c, locs, e.t, TernBase(c, e, t));
      SameTemps(c, locs, e.f, TernBase(c, e, t));
    } else {
      CallTemporaries(c, e, t);
      CallTemporaries(c', e, t);
      SameTempsArgs(c, locs, e.args, AllocEnd(t, 8));
    }
  }

  lemma {:induction false} SameTempsArgs(c: Ctx, locs: seq<nat>, args: Args, t: nat)
    ensures TempEndArgs(Resolved(c, locs), args, t) == TempEndArgs(c, args, t)
    ensures PeakArgs(Resolved(c, locs), args, t) == PeakArgs(c, args, t)
    decreases args
  {
    hide Resolved, TempEnd, Peak;
    if args.Arg? {
      SameTemps(c, locs, args.head, t);
      SameTempsArgs(c, locs, args.tail, TempEnd(c, args.head, t));
    }
  }

  lemma VarSolid(c: Ctx, x: nat)
    requires Wf(c) && Scalar(c.f, x) && Declared(c.f, x)
    ensures Solid(VarOpd(c, x)) && VarOpd(c, x).Auto?
  {
    SlotFacts(c, x);
  }

  /** The operand of an expression with a value is never a reference. */
  lemma {:induction false} ResSolid(c: Ctx, e: Expr, t: nat)
    requires Wf(c) && TypeOf(c.p, c.f, e).TInt?
    ensures Solid(ResOpd(c, e, t))
    decreases e
  {
    hide Wf, Declared, Scalar;
    match e
    case Name(x) => VarSolid(c, x);
    case Assign(x, _) => ModifiableIs(c.f, x); VarSolid(c, x);
    case AssignOp(_, x, _) => ModifiableIs(c.f, x); VarSolid(c, x);
    case PreInc(_, x) => ModifiableIs(c.f, x); VarSolid(c, x);
    case Comma(_, r) => ResSolid(c, r, t);
    case UPlus(a) => ResSolid(c, a, t);
    case _ =>
  }

  lemma ModifiableIs(f: Func, x: nat)
    requires Modifiable(f, x)
    ensures Scalar(f, x) && Declared(f, x)
  {
  }

  lemma SameVar(c: Ctx, locs: seq<nat>, x: nat)
    ensures VarOpd(Resolved(c, locs), x) == VarOpd(c, x)
  {
  }

  lemma SolidLinked(o: Opd, locs: seq<nat>)
    requires Solid(o)
    ensures LinkOpd(o, locs) == o
  {
  }

  lemma TempSolid(t: nat, ty: Ty, locs: seq<nat>)
    ensures LinkOpd(TempAt(t, ty), locs) == TempAt(t, ty)
  {
  }

  /** One instruction of an expression's code, linked. */
  lemma LinkOne(i: Insn, locs: seq<nat>)
    ensures i.Mov? || i.CastI? || i.Un? || i.IncDecP? ==>
      (LinkOpd(i.dst, locs) == i.dst && LinkOpd(i.src, locs) == i.src ==> LinkInsn(i, locs) == i)
    ensures i.Bin? || i.CmpI? ==>
      (LinkOpd(i.dst, locs) == i.dst && LinkOpd(i.src1, locs) == i.src1 && LinkOpd(i.src2, locs) == i.src2 ==> LinkInsn(i, locs) == i)
    ensures i.IncDec? ==> (LinkOpd(i.dst, locs) == i.dst ==> LinkInsn(i, locs) == i)
    ensures i.Jz? || i.Jnz? ==> (LinkOpd(i.cond, locs) == i.cond ==> LinkInsn(i, locs) == i)
    ensures i.Push? || i.RetV? ==> (LinkOpd(i.src, locs) == i.src ==> LinkInsn(i, locs) == i)
    ensures i.PushR? ==> (LinkOpd(i.ssp, locs) == i.ssp ==> LinkInsn(i, locs) == i)
    ensures i.Nop? || i.Jmp? || i.IncSp? || i.RetI? || i.WLab? || i.NoIntI? || i.IntI? ==> LinkInsn(i, locs) == i
  {
    hide LinkOpd;
  }

  // ---------- linked code is placed for the resolved references ----------

  lemma {:induction false} LinkPlaced(code: seq<Insn>, c: Ctx, locs: seq<nat>, p: nat, t: nat, e: Expr)
    requires Unlinked(c, locs) && !TypeOf(c.p, c.f, e).TErr? && Placed(code, c, p, t, e)
    ensures Placed(LinkCode(code, locs), Resolved(c, locs), p, t, e)
    decreases e, 2
  {
    hide *;
    var b, c' := LinkCode(code, locs), Resolved(c, locs);
    UnlinkedWf(c, locs);
    SameTemps(c, locs, e, t);
    PlusPlaced(code, c, p, t, e);
    PlusPlaced(b, c', p, t, e);
    if e.UPlus? {
      UPlusTypes(c, e);
      LinkPlaced(code, c, locs, p, t, e.e);
    } else if e.Assign? || e.AssignOp? {
      AssignTypes(c, e);
      AssignHasValue(c, e);
      AssignPlaced(code, c, p, t, e);
      AssignPlaced(b, c', p, t, e);
      LinkPlaced(code, c, locs, p, t, e.rhs);
      SameTemps(c, locs, e.rhs, t);
      SameVar(c, locs, e.x);
      VarSolid(c, e.x);
      SolidLinked(VarOpd(c, e.x), locs);
      ResSolid(c, e.rhs, t);
      SolidLinked(ResOpd(c, e.rhs, t), locs);
      var i := if e.Assign? then Mov(VarOpd(c, e.x), ResOpd(c, e.rhs, t))
               else Bin(e.op, VarOpd(c, e.x), VarOpd(c, e.x), ResOpd(c, e.rhs, t));
      LinkOne(i, locs);
      AtLinked(code, locs, p + Len(e.rhs), i);
    } else if e.Cast? || e.UMinus? || e.LNot? || e.BNot? {
      LinkUnary(code, c, locs, p, t, e);
    } else if e.Arith? || e.Cmp? || e.Comma? || e.Conj? || e.Disj? {
      LinkTwo(code, c, locs, p, t, e);
    } else if e.PreInc? || e.PostInc? {
      BumpTypes(c, e);
      BumpPlaced(code, c, p, t, e);
      BumpPlaced(b, c', p, t, e);
      SameVar(c, locs, e.x);
      VarSolid(c, e.x);
      SolidLinked(VarOpd(c, e.x), locs);
      ResSolid(c, e, t);
      SolidLinked(ResOpd(c, e, t), locs);
      var i := if e.PreInc? then IncDec(e.up, VarOpd(c, e.x)) else IncDecP(e.up, ResOpd(c, e, t), VarOpd(c, e.x));
      LinkOne(i, locs);
      AtLinked(code, locs, p, i);
    } else if e.Tern? {
      LinkTern(code, c, locs, p, t, e);
    } else if e.Call? {
      LinkCall(code, c, locs, p, t, e);
    }
  }

  lemma UnlinkedWf(c: Ctx, locs: seq<nat>)
    requires Unlinked(c, locs)
    ensures Wf(c) && |c.fns| == |c.p| == |locs|
    ensures Resolved(c, locs).p == c.p && Resolved(c, locs).f == c.f && Resolved(c, locs).frame == c.frame
    ensures |Resolved(c, locs).fns| == |c.fns|
  {
    hide Wf;
  }

  lemma UPlusTypes(c: Ctx, e: Expr)
    requires e.UPlus? && !TypeOf(c.p, c.f, e).TErr?
    ensures !TypeOf(c.p, c.f, e.e).TErr?
  {
  }

  lemma AssignHasValue(c: Ctx, e: Expr)
    requires (e.Assign? || e.AssignOp?) && !TypeOf(c.p, c.f, e).TErr?
    ensures TypeOf(c.p, c.f, e.rhs).TInt?
  {
  }

  lemma BumpTypes(c: Ctx, e: Expr)
    requires (e.PreInc? || e.PostInc?) && !TypeOf(c.p, c.f, e).TErr?
    ensures Scalar(c.f, e.x) && Declared(c.f, e.x) && TypeOf(c.p, c.f, e).TInt?
  {
  }

  lemma {:induction false} LinkUnary(code: seq<Insn>, c: Ctx, locs: seq<nat>, p: nat, t: nat, e: Expr)
    requires e.Cast? || e.UMinus? || e.LNot? || e.BNot?
    requires Unlinked(c, locs) && !TypeOf(c.p, c.f, e).TErr? && Placed(code, c, p, t, e)
    ensures Placed(LinkCode(code, locs), Resolved(c, locs), p, t, e)
    decreases e, 0
  {
    hide *;
    UnlinkedWf(c, locs);
    UnaryTypes(c, e);
    NotErr(c, e.e);
    UnaryPlaced(code, c, p, t, e);
    UnaryPlaced(LinkCode(code, locs), Resolved(c, locs), p, t, e);
    LinkPlaced(code, c, locs, p, t, e.e);
    SameTemps(c, locs, e, t);
    SameTemps(c, locs, e.e, t);
    ResSolid(c, e, t);
    SolidLinked(ResOpd(c, e, t), locs);
    ResSolid(c, e.e, t);
    SolidLinked(ResOpd(c, e.e, t), locs);
    UnaryShape(e, ResOpd(c, e, t), ResOpd(c, e.e, t));
    LinkOne(UnaryInsn(e, ResOpd(c, e, t), ResOpd(c, e.e, t)), locs);
    AtLinked(code, locs, p + Len(e.e), UnaryInsn(e, ResOpd(c, e, t), ResOpd(c, e.e, t)));
  }

  lemma UnaryShape(e: Expr, dst: Opd, src: Opd)
    requires e.Cast? || e.UMinus? || e.LNot? || e.BNot?
    ensures var i := UnaryInsn(e, dst, src); (i.CastI? || i.Un?) && i.dst == dst && i.src == src
  {
  }

  lemma NotErr(c: Ctx, e: Expr)
    ensures TypeOf(c.p, c.f, e).TInt? ==> !TypeOf(c.p, c.f, e).TErr?
  {
    hide TypeOf;
  }

  lemma {:induction false} LinkTwo(code: seq<Insn>, c: Ctx, locs: seq<nat>, p: nat, t: nat, e: Expr)
    requires e.Arith? || e.Cmp? || e.Comma? || e.Conj? || e.Disj?
    requires Unlinked(c, locs) && !TypeOf(c.p, c.f, e).TErr? && Placed(code, c, p, t, e)
    ensures Placed(LinkCode(code, locs), Resolved(c, locs), p, t, e)
    decreases e, 1
  {
    hide *;
    UnlinkedWf(c, locs);
    var b, c' := LinkCode(code, locs), Resolved(c, locs);
    SameTemps(c, locs, e, t);
    SameTemps(c, locs, e.l, t);
    if e.Comma? {
      CommaTypes(c, e);
      CommaPlaced(code, c, p, t, e);
      CommaPlaced(b, c', p, t, e);
      LinkPlaced(code, c, locs, p, t, e.l);
      LinkPlaced(code, c, locs, p + Len(e.l), t, e.r);
    } else if e.Arith? || e.Cmp? {
      PairTypes(c, e);
      BinOkTypes(if e.Arith? then e.op else Add, TypeOf(c.p, c.f, e.l), TypeOf(c.p, c.f, e.r));
      var t1 := TempEnd(c, e.l, t);
      SameTemps(c, locs, e.r, t1);
      PairPlaced(code, c, p, t, e);
      PairPlaced(b, c', p, t, e);
      LinkPlaced(code, c, locs, p, t, e.l);
      LinkPlaced(code, c, locs, p + Len(e.l), t1, e.r);
      ResSolid(c, e, t);
      SolidLinked(ResOpd(c, e, t), locs);
      ResSolid(c, e.l, t);
      SolidLinked(ResOpd(c, e.l, t), locs);
      ResSolid(c, e.r, t1);
      SolidLinked(ResOpd(c, e.r, t1), locs);
      var i := if e.Arith? then Bin(e.op, ResOpd(c, e, t), ResOpd(c, e.l, t), ResOpd(c, e.r, t1))
               else CmpI(e.cmp, ResOpd(c, e, t), ResOpd(c, e.l, t), ResOpd(c, e.r, t1));
      LinkOne(i, locs);
      AtLinked(code, locs, p + Len(e.l) + Len(e.r), i);
    } else {
      LinkLogic(code, c, locs, p, t, e);
    }
  }

  lemma {:induction false} LinkLogic(code: seq<Insn>, c: Ctx, locs: seq<nat>, p: nat, t: nat, e: Expr)
    requires e.Conj? || e.Disj?
    requires Unlinked(c, locs) && !TypeOf(c.p, c.f, e).TErr? && Placed(code, c, p, t, e)
    ensures Placed(LinkCode(code, locs), Resolved(c, locs), p, t, e)
    decreases e, 0
  {
    hide *;
    ByteWord();
    UnlinkedWf(c, locs);
    LogicTypes(c, e);
    var t0 := TempEnd(c, e.l, t);
    var t1, dst := AllocEnd(t0, 1), TempAt(t0, U8);
    SameTemps(c, locs, e.l, t);
    SameTemps(c, locs, e.r, t1);
    LogicPlaced(code, c, p, t, e);
    LogicPlaced(LinkCode(code, locs), Resolved(c, locs), p, t, e);
    var pr := p + Len(e.l) + 2;
    var end := pr + Len(e.r) + 2;
    NotErr(c, e.l);
    NotErr(c, e.r);
    LinkPlaced(code, c, locs, p, t, e.l);
    LinkPlaced(code, c, locs, pr, t1, e.r);
    TempSolid(t0, U8, locs);
    ResSolid(c, e.l, t);
    SolidLinked(ResOpd(c, e.l, t), locs);
    ResSolid(c, e.r, t1);
    SolidLinked(ResOpd(c, e.r, t1), locs);
    var i1, i2, i3 := Un(OzOp, dst, ResOpd(c, e.l, t)),
      if e.Conj? then Jz(ResOpd(c, e.l, t), end) else Jnz(ResOpd(c, e.l, t), end), Un(OzOp, dst, ResOpd(c, e.r, t1));
    LinkOne(i1, locs);
    LinkOne(i2, locs);
    LinkOne(i3, locs);
    MaskLinked(e.Conj?, dst, locs);
    AtLinked(code, locs, p + Len(e.l), i1);
    AtLinked(code, locs, p + Len(e.l) + 1, i2);
    AtLinked(code, locs, pr + Len(e.r), i3);
    AtLinked(code, locs, pr + Len(e.r) + 1, MaskInsn(e.Conj?, dst));
  }

  lemma MaskLinked(conj: bool, dst: Opd, locs: seq<nat>)
    requires LinkOpd(dst, locs) == dst
    ensures LinkInsn(MaskInsn(conj, dst), locs) == MaskInsn(conj, dst)
  {
  }

  lemma {:induction false} LinkTern(code: seq<Insn>, c: Ctx, locs: seq<nat>, p: nat, t: nat, e: Expr)
    requires e.Tern?
    requires Unlinked(c, locs) && !TypeOf(c.p, c.f, e).TErr? && Placed(code, c, p, t, e)
    ensures Placed(LinkCode(code, locs), Resolved(c, locs), p, t, e)
    decreases e, 0
  {
    hide *;
    UnlinkedWf(c, locs);
    TernTypes(c, e);
    var t1 := TernBase(c, e, t);
    SameTern(c, locs, e, t);
    SameTemps(c, locs, e, t);
    SameTemps(c, locs, e.c, t);
    SameTemps(c, locs, e.t, t1);
    SameTemps(c, locs, e.f, t1);
    TernPlaced(code, c, p, t, e);
    TernPlaced(LinkCode(code, locs), Resolved(c, locs), p, t, e);
    var pa := p + Len(e.c) + 1;
    var pb := pa + Len(e.t) + 2;
    NotErr(c, e.c);
    LinkPlaced(code, c, locs, p, t, e.c);
    LinkPlaced(code, c, locs, pa, t1, e.t);
    LinkPlaced(code, c, locs, pb, t1, e.f);
    ResSolid(c, e, t);
    SolidLinked(ResOpd(c, e, t), locs);
    ResSolid(c, e.c, t);
    SolidLinked(ResOpd(c, e.c, t), locs);
    ResSolid(c, e.t, t1);
    SolidLinked(ResOpd(c, e.t, t1), locs);
    ResSolid(c, e.f, t1);
    SolidLinked(ResOpd(c, e.f, t1), locs);
    var i1, i2, i3, i4 := Jz(ResOpd(c, e.c, t), pb), Mov(ResOpd(c, e, t), ResOpd(c, e.t, t1)), Jmp(pb + Len(e.f) + 1),
      Mov(ResOpd(c, e, t), ResOpd(c, e.f, t1));
    LinkOne(i1, locs);
    LinkOne(i2, locs);
    LinkOne(i3, locs);
    LinkOne(i4, locs);
    AtLinked(code, locs, p + Len(e.c), i1);
    AtLinked(code, locs, pa + Len(e.t), i2);
    AtLinked(code, locs, pa + Len(e.t) + 1, i3);
    AtLinked(code, locs, pb + Len(e.f), i4);
  }

  lemma SameTern(c: Ctx, locs: seq<nat>, e: Expr, t: nat)
    requires e.Tern?
    ensures TernBase(Resolved(c, locs), e, t) == TernBase(c, e, t)
  {
    SameTemps(c, locs, e.c, t);
    hide TypeOf, TempEnd, AllocEnd, LinkedFns;
  }

  /** The call instruction is where the reference is. */
  lemma {:induction false} LinkCall(code: seq<Insn>, c: Ctx, locs: seq<nat>, p: nat, t: nat, e: Expr)
    requires e.Call?
    requires Unlinked(c, locs) && !TypeOf(c.p, c.f, e).TErr? && Placed(code, c, p, t, e)
    ensures Placed(LinkCode(code, locs), Resolved(c, locs), p, t, e)
    decreases e, 0
  {
    hide *;
    ByteWord();
    UnlinkedWf(c, locs);
    CallTypes(c, e);
    var t1, ssp := AllocEnd(t, 8), TempAt(t, U64);
    CallPlaced(code, c, p, t, e);
    CallPlaced(LinkCode(code, locs), Resolved(c, locs), p, t, e);
    LinkArgs(code, c, locs, p + 1, t1, e.args, c.p[e.g], 0);
    TempSolid(t, U64, locs);
    var q := p + 1 + LenArgs(e.args);
    LinkOne(PushR(q, ssp), locs);
    AtLinked(code, locs, p, PushR(q, ssp));
    if HasValue(c, e) {
      ResSolid(c, e, t);
      SolidLinked(ResOpd(c, e, t), locs);
    }
    SameTemps(c, locs, e, t);
    CallLinked(c, locs, e, t);
    AtLinked(code, locs, q, CallInsn(c, e, t));
  }

  lemma CallLinked(c: Ctx, locs: seq<nat>, e: Expr, t: nat)
    requires Unlinked(c, locs) && e.Call? && e.g < |c.fns| && |Resolved(c, locs).fns| == |c.fns|
    requires HasValue(c, e) ==> LinkOpd(ResOpd(c, e, t), locs) == ResOpd(c, e, t)
    requires ResOpd(Resolved(c, locs), e, t) == ResOpd(c, e, t)
    requires LinkOpd(TempAt(t, U64), locs) == TempAt(t, U64)
    ensures LinkInsn(CallInsn(c, e, t), locs) == CallInsn(Resolved(c, locs), e, t)
  {
    hide ResOpd, TypeOf, Wf, TempAt;
  }

  lemma {:induction false} LinkArgs(code: seq<Insn>, c: Ctx, locs: seq<nat>, p: nat, t: nat, args: Args, g: Func, i: nat)
    requires Unlinked(c, locs) && ArgsOk(c.p, c.f, args, g, i) && PlacedArgs(code, c, p, t, args)
    ensures PlacedArgs(LinkCode(code, locs), Resolved(c, locs), p, t, args)
    decreases args, 0
  {
    hide *;
    UnlinkedWf(c, locs);
    NoArgsPlaced(LinkCode(code, locs), Resolved(c, locs), p, t);
    if args.Arg? {
      ArgTypes(c, args, g, i);
      ArgPlaced(code, c, p, t, args);
      ArgPlaced(LinkCode(code, locs), Resolved(c, locs), p, t, args);
      NotErr(c, args.head);
      LinkPlaced(code, c, locs, p, t, args.head);
      SameTemps(c, locs, args.head, t);
      ResSolid(c, args.head, t);
      SolidLinked(ResOpd(c, args.head, t), locs);
      LinkOne(Push(ResOpd(c, args.head, t)), locs);
      AtLinked(code, locs, p + Len(args.head), Push(ResOpd(c, args.head, t)));
      LinkArgs(code, c, locs, p + Len(args.head) + 1, TempEnd(c, args.head, t), args.tail, g, i + 1);
    }
  }

  // ---------- statements ----------

  lemma {:induction false} LinkInit(code: seq<Insn>, c: Ctx, locs: seq<nat>, p: nat, names: seq<nat>, src: Opd)
    requires Unlinked(c, locs) && Solid(src) && PlacedInit(code, c, p, names, src)
    requires forall x :: x in names ==> Scalar(c.f, x) && Declared(c.f, x)
    ensures PlacedInit(LinkCode(code, locs), Resolved(c, locs), p, names, src)
    decreases |names|
  {
    hide At, LinkCode, Scalar, Declared, Unlinked, VarOpd, LinkInsn, LinkOpd, Resolved;
    if names != [] {
      assert names[0] in names;
      UnlinkedWf(c, locs);
      SameVar(c, locs, names[0]);
      VarSolid(c, names[0]);
      SolidLinked(VarOpd(c, names[0]), locs);
      SolidLinked(src, locs);
      LinkOne(Mov(VarOpd(c, names[0]), src), locs);
      AtLinked(code, locs, p, Mov(VarOpd(c, names[0]), src));
      LinkInit(code, c, locs, p + 1, names[1..], src);
    }
  }

  /** An operand with a value, linked together with the instruction that reads it. */
  lemma LinkReader(code: seq<Insn>, c: Ctx, locs: seq<nat>, p: nat, e: Expr, insn: Insn)
    requires Unlinked(c, locs) && TypeOf(c.p, c.f, e).TInt? && Placed(code, c, p, 0, e)
    requires At(code, p + Len(e), insn)
    requires insn.Jz? || insn.Jnz? || insn.RetV?
    requires ResOpd(c, e, 0) == if insn.RetV? then insn.src else insn.cond
    ensures Placed(LinkCode(code, locs), Resolved(c, locs), p, 0, e) && At(LinkCode(code, locs), p + Len(e), insn)
    ensures ResOpd(Resolved(c, locs), e, 0) == ResOpd(c, e, 0)
  {
    hide *;
    UnlinkedWf(c, locs);
    NotErr(c, e);
    LinkPlaced(code, c, locs, p, 0, e);
    SameTemps(c, locs, e, 0);
    ResSolid(c, e, 0);
    SolidLinked(ResOpd(c, e, 0), locs);
    LinkOne(insn, locs);
    AtLinked(code, locs, p + Len(e), insn);
  }

  lemma LinkPlain(code: seq<Insn>, locs: seq<nat>, i: nat, insn: Insn)
    requires insn.Nop? || insn.Jmp? || insn.IncSp? || insn.RetI? || insn.WLab? || insn.NoIntI? || insn.IntI?
    requires At(code, i, insn)
    ensures At(LinkCode(code, locs), i, insn)
  {
    hide *;
    LinkOne(insn, locs);
    AtLinked(code, locs, i, insn);
  }

  lemma {:induction false} LinkS(code: seq<Insn>, c: Ctx, locs: seq<nat>, p: nat, s: Stmt)
    requires Unlinked(c, locs) && StmtOk(c.p, c.f, s) && PlacedS(code, c, p, s)
    ensures PlacedS(LinkCode(code, locs), Resolved(c, locs), p, s)
    decreases s, 1
  {
    hide Unlinked, Placed, PlacedInit, PlacedAll, PlacedElse, At, ResOpd, Len, LenAll, LenElse, TypeOf, LinkCode, Resolved, StmtsOk, ElseOk, Scalar, Declared;
    UnlinkedWf(c, locs);
    match s
    case Decl(names, init) =>
      if init.Some? {
        LinkPlaced(code, c, locs, p, 0, init.value);
        SameTemps(c, locs, init.value, 0);
        if names != [] {
          assert names[0] in names;
          ResSolid(c, init.value, 0);
          LinkInit(code, c, locs, p + Len(init.value), names, ResOpd(c, init.value, 0));
        } else {
          NoNames(LinkCode(code, locs), Resolved(c, locs), p + Len(init.value), ResOpd(c, init.value, 0));
        }
      }
    case ExprS(e) =>
      LinkPlaced(code, c, locs, p, 0, e);
      LinkPlain(code, locs, p + Len(e), Nop);
    case Block(b) => LinkAll(code, c, locs, p, b);
    case NoInt(b) =>
      LinkPlain(code, locs, p, NoIntI);
      LinkAll(code, c, locs, p + 1, b);
      LinkPlain(code, locs, p + 1 + LenAll(b), IntI);
    case If(els) => LinkElse(code, c, locs, p, p + LenElse(els), els);
    case While(k, b) =>
      var pb := p + Len(k) + 1;
      LinkReader(code, c, locs, p, k, Jz(ResOpd(c, k, 0), pb + LenAll(b) + 1));
      LinkAll(code, c, locs, pb, b);
      LinkPlain(code, locs, pb + LenAll(b), Jmp(p));
    case DoWhile(b, k) =>
      LinkAll(code, c, locs, p, b);
      LinkReader(code, c, locs, p + LenAll(b), k, Jnz(ResOpd(c, k, 0), p));
    case Return(v) =>
      if v.Some? {
        LinkReader(code, c, locs, p, v.value, RetV(ResOpd(c, v.value, 0), c.frame + 16));
      } else {
        LinkPlain(code, locs, p, RetI(c.frame + 16));
      }
    case WLabel(l) => LinkPlain(code, locs, p, WLab(l));
  }

  lemma NoNames(code: seq<Insn>, c: Ctx, p: nat, src: Opd)
    ensures PlacedInit(code, c, p, [], src)
  {
  }

  lemma {:induction false} LinkAll(code: seq<Insn>, c: Ctx, locs: seq<nat>, p: nat, ss: Stmts)
    requires Unlinked(c, locs) && StmtsOk(c.p, c.f, ss) && PlacedAll(code, c, p, ss)
    ensures PlacedAll(LinkCode(code, locs), Resolved(c, locs), p, ss)
    decreases ss, 0
  {
    hide Unlinked, PlacedS, LenS, StmtOk, LinkCode, Resolved;
    UnlinkedWf(c, locs);
    if ss.Cons? {
      LinkS(code, c, locs, p, ss.head);
      LinkAll(code, c, locs, p + LenS(ss.head), ss.tail);
    }
  }

  lemma {:induction false} LinkElse(code: seq<Insn>, c: Ctx, locs: seq<nat>, p: nat, end: nat, els: Else)
    requires Unlinked(c, locs) && ElseOk(c.p, c.f, els) && PlacedElse(code, c, p, end, els)
    ensures PlacedElse(LinkCode(code, locs), Resolved(c, locs), p, end, els)
    decreases els, 0
  {
    hide Unlinked, Placed, PlacedAll, At, ResOpd, Len, LenAll, TypeOf, LinkCode, Resolved, StmtsOk;
    UnlinkedWf(c, locs);
    match els
    case NoElse =>
    case ElseBlock(b) => LinkAll(code, c, locs, p, b);
    case Elif(k, b, rest) =>
      var pb := p + Len(k) + 1;
      var pe := pb + LenAll(b) + 1;
      LinkReader(code, c, locs, p, k, Jz(ResOpd(c, k, 0), pe));
      LinkAll(code, c, locs, pb, b);
      LinkPlain(code, locs, pb + LenAll(b), Jmp(end));
      LinkElse(code, c, locs, pe, end, rest);
  }

  lemma {:induction false} SamePeak(c: Ctx, locs: seq<nat>, ss: Stmts)
    ensures PeakAll(Resolved(c, locs), ss) == PeakAll(c, ss)
    decreases ss, 1
  {
    hide Peak, Resolved;
    if ss.Cons? {
      SamePeakS(c, locs, ss.head);
      SamePeak(c, locs, ss.tail);
    }
  }

  lemma {:induction false} SamePeakS(c: Ctx, locs: seq<nat>, s: Stmt)
    ensures PeakS(Resolved(c, locs), s) == PeakS(c, s)
    decreases s, 0
  {
    hide Peak, Resolved;
    match s
    case Decl(_, init) => if init.Some? { SameTemps(c, locs, init.value, 0); }
    case ExprS(e) => SameTemps(c, locs, e, 0);
    case Block(b) => SamePeak(c, locs, b);
    case NoInt(b) => SamePeak(c, locs, b);
    case If(els) => SamePeakElse(c, locs, els);
    case While(k, b) => SameTemps(c, locs, k, 0); SamePeak(c, locs, b);
    case DoWhile(b, k) => SamePeak(c, locs, b); SameTemps(c, locs, k, 0);
    case Return(v) => if v.Some? { SameTemps(c, locs, v.value, 0); }
    case WLabel(_) =>
  }

  lemma {:induction false} SamePeakElse(c: Ctx, locs: seq<nat>, els: Else)
    ensures PeakElse(Resolved(c, locs), els) == PeakElse(c, els)
    decreases els, 0
  {
    hide Peak, Resolved;
    match els
    case NoElse =>
    case ElseBlock(b) => SamePeak(c, locs, b);
    case Elif(k, b, rest) => SameTemps(c, locs, k, 0); SamePeak(c, locs, b); SamePeakElse(c, locs, rest);
  }

  /** A function generated with references stands linked in the linked code. */
  lemma LinkFunction(code: seq<Insn>, c: Ctx, locs: seq<nat>, p: nat)
    requires Unlinked(c, locs) && DeclsOk(c.f) && StmtsOk(c.p, c.f, c.f.body) && PlacedF(code, c, p)
    ensures PlacedF(LinkCode(code, locs), Resolved(c, locs), p)
  {
    hide *;
    UnlinkedWf(c, locs);
    FunctionParts(code, c, p);
    FunctionParts(LinkCode(code, locs), Resolved(c, locs), p);
    LinkPlain(code, locs, p, IncSp(c.frame - ArgsSize(c.f), PeakAll(c, c.f.body)));
    LinkAll(code, c, locs, p + 1, c.f.body);
    LinkPlain(code, locs, p + 1 + LenAll(c.f.body), RetI(c.frame + 16));
    SamePeak(c, locs, c.f.body);
  }

  lemma FunctionParts(code: seq<Insn>, c: Ctx, p: nat)
    requires DeclsOk(c.f)
    ensures PlacedF(code, c, p) <==>
      && ArgsSize(c.f) <= c.frame
      && At(code, p, IncSp(c.frame - ArgsSize(c.f), PeakAll(c, c.f.body)))
      && PlacedAll(code, c, p + 1, c.f.body)
      && At(code, p + 1 + LenAll(c.f.body), RetI(c.frame + 16))
  {
    hide At, PlacedAll, ArgsSize, PeakAll, LenAll, DeclsOk;
  }
}
