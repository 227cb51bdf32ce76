/** What emitting the code of one expression form does to the generator's state: instructions appended, the
    allocator moved, its peak raised.  Each lemma turns the effects of the parts into the effect of the whole. */
module Emission {
  import opened Words
  import opened Ast
  import opened Layout
  import opened Insn
  import opened Codegen
  import opened Shapes
  import opened Window

  /** The generator's `o->insns`, `temp_off` and `temp_off_peak`. */
  datatype Gen = Gen(insns: seq<Insn>, off: nat, peak: nat)

  /** From g0, generating e leads to g1 and hands back `res`. */
  ghost predicate Gained(c: Ctx, e: Expr, g0: Gen, g1: Gen, res: Opd) {
    && g0.insns <= g1.insns && |g1.insns| == |g0.insns| + Len(e)
    && Placed(g1.insns, c, |g0.insns|, g0.off, e)
    && g1.off == TempEnd(c, e, g0.off) && g1.peak == Max(g0.peak, Peak(c, e, g0.off))
    && res == ResOpd(c, e, g0.off)
  }

  ghost predicate GainedArgs(c: Ctx, args: Args, g0: Gen, g1: Gen) {
    && g0.insns <= g1.insns && |g1.insns| == |g0.insns| + LenArgs(args)
    && PlacedArgs(g1.insns, c, |g0.insns|, g0.off, args)
    && g1.off == TempEndArgs(c, args, g0.off) && g1.peak == Max(g0.peak, PeakArgs(c, args, g0.off))
  }

  function Emitted(g: Gen, insn: Insn): Gen {
    g.(insns := g.insns + [insn])
  }

  /** OPD_TEMP */
  function Allocated(g: Gen, size: nat): Gen
    requires IsWord(size)
  {
    g.(off := AllocEnd(g.off, size), peak := Max(g.peak, AllocEnd(g.off, size)))
  }

  lemma GainedParts(c: Ctx, e: Expr, g0: Gen, g1: Gen, res: Opd)
    requires Gained(c, e, g0, g1, res)
    ensures g0.insns <= g1.insns && |g1.insns| == |g0.insns| + Len(e)
    ensures Placed(g1.insns, c, |g0.insns|, g0.off, e)
    ensures g1.off == TempEnd(c, e, g0.off) && g1.peak == Max(g0.peak, Peak(c, e, g0.off)) && res == ResOpd(c, e, g0.off)
    ensures g0.off <= g1.off <= g1.peak && g0.peak <= g1.peak
  {
    hide Placed, Len, ResOpd;
  }

  /** Code stays placed when more is appended. */
  lemma Extended(a: seq<Insn>, b: seq<Insn>, c: Ctx, p: nat, t: nat, e: Expr)
    requires a <= b && p + Len(e) <= |a| && Placed(a, c, p, t, e)
    ensures Placed(b, c, p, t, e)
  {
    hide Placed, Len;
    PlacedLocal(a, b, c, p, t, e);
  }

  /** Code stays placed when an instruction outside it is back-patched. */
  lemma Patched(a: seq<Insn>, at: nat, insn: Insn, c: Ctx, p: nat, t: nat, e: Expr)
    requires at < |a| && p + Len(e) <= |a| && Placed(a, c, p, t, e) && (at < p || p + Len(e) <= at)
    ensures Placed(a[at := insn], c, p, t, e)
  {
    hide Placed, Len;
    PlacedLocal(a, a[at := insn], c, p, t, e);
  }

  lemma AtEnd(a: seq<Insn>, insn: Insn)
    ensures At(a + [insn], |a|, insn)
  {
  }

  lemma AtIndex(a: seq<Insn>, i: nat, insn: Insn)
    requires i < |a| && a[i] == insn
    ensures At(a, i, insn)
  {
  }

  lemma AtomGained(c: Ctx, e: Expr, g: Gen)
    requires e.Num? || e.Bool? || e.Name?
    requires g.off <= g.peak
    ensures Gained(c, e, g, g, match e case Num(v) => Imm(false, v, NumTy(v).Size())
                                        case Bool(b) => Imm(false, if b then 1 else 0, 1)
                                        case Name(x) => VarOpd(c, x))
  {
  }

  lemma UPlusGained(c: Ctx, e: Expr, g0: Gen, g1: Gen, res: Opd)
    requires e.UPlus? && Gained(c, e.e, g0, g1, res)
    ensures Gained(c, e, g0, g1, res)
  {
  }

  lemma AssignTemporaries(c: Ctx, e: Expr, t: nat)
    requires e.Assign? || e.AssignOp?
    ensures TempEnd(c, e, t) == (if e.AssignOp? && AllocatesUnused(e.op) then AllocEnd(TempEnd(c, e.rhs, t), VarTy(c, e.x).Size())
                                 else TempEnd(c, e.rhs, t))
    ensures Peak(c, e, t) == Max(Peak(c, e.rhs, t), TempEnd(c, e, t)) && ResOpd(c, e, t) == VarOpd(c, e.x)
  {
  }

  function AssignInsn(c: Ctx, e: Expr, src: Opd): Insn
    requires e.Assign? || e.AssignOp?
  {
    if e.Assign? then Mov(VarOpd(c, e.x), src) else Bin(e.op, VarOpd(c, e.x), VarOpd(c, e.x), src)
  }

  lemma AssignGained(c: Ctx, e: Expr, g0: Gen, g1: Gen, g2: Gen, src: Opd)
    requires (e.Assign? || e.AssignOp?) && Gained(c, e.rhs, g0, g1, src)
    requires g2 == Emitted(if e.AssignOp? && AllocatesUnused(e.op) then Allocated(g1, VarTy(c, e.x).Size()) else g1,
                           AssignInsn(c, e, src))
    ensures Gained(c, e, g0, g2, VarOpd(c, e.x))
  {
    hide Gained, Placed, Len, TempEnd, Peak, ResOpd, At, VarOpd, AllocEnd, VarTy;
    GainedParts(c, e.rhs, g0, g1, src);
    Extended(g1.insns, g2.insns, c, |g0.insns|, g0.off, e.rhs);
    AtEnd(g1.insns, AssignInsn(c, e, src));
    AssignPlaced(g2.insns, c, |g0.insns|, g0.off, e);
    AssignTemporaries(c, e, g0.off);
    Lengths(e);
    MkGained(c, e, g0, g2, VarOpd(c, e.x));
  }

  lemma MkGained(c: Ctx, e: Expr, g0: Gen, g1: Gen, res: Opd)
    requires g0.insns <= g1.insns && |g1.insns| == |g0.insns| + Len(e)
    requires Placed(g1.insns, c, |g0.insns|, g0.off, e)
    requires g1.off == TempEnd(c, e, g0.off) && g1.peak == Max(g0.peak, Peak(c, e, g0.off)) && res == ResOpd(c, e, g0.off)
    ensures Gained(c, e, g0, g1, res)
  {
    hide Placed, Len, TempEnd, Peak, ResOpd;
  }

  lemma UnaryTemporaries(c: Ctx, e: Expr, t: nat)
    requires e.Cast? || e.UMinus? || e.LNot? || e.BNot?
    ensures var ty := if e.Cast? then e.to else ValTy(c, e);
      && TempEnd(c, e, t) == AllocEnd(TempEnd(c, e.e, t), ty.Size())
      && Peak(c, e, t) == Max(Peak(c, e.e, t), TempEnd(c, e, t))
      && ResOpd(c, e, t) == TempAt(TempEnd(c, e.e, t), ty)
  {
    hide TypeOf;
  }

  lemma UnaryGained(c: Ctx, e: Expr, g0: Gen, g1: Gen, g2: Gen, src: Opd)
    requires (e.Cast? || e.UMinus? || e.LNot? || e.BNot?) && Gained(c, e.e, g0, g1, src)
    requires var ty := if e.Cast? then e.to else ValTy(c, e);
      g2 == Emitted(Allocated(g1, ty.Size()), UnaryInsn(e, TempAt(g1.off, ty), src))
    ensures var ty := if e.Cast? then e.to else ValTy(c, e);
      Gained(c, e, g0, g2, TempAt(g1.off, ty))
  {
    hide Gained, Placed, Len, TempEnd, Peak, ResOpd, At, AllocEnd, TempAt, UnaryInsn, ValTy;
    var ty := if e.Cast? then e.to else ValTy(c, e);
    GainedParts(c, e.e, g0, g1, src);
    Extended(g1.insns, g2.insns, c, |g0.insns|, g0.off, e.e);
    AtEnd(g1.insns, UnaryInsn(e, TempAt(g1.off, ty), src));
    UnaryTemporaries(c, e, g0.off);
    UnaryPlaced(g2.insns, c, |g0.insns|, g0.off, e);
    Lengths(e);
    MkGained(c, e, g0, g2, TempAt(g1.off, ty));
  }

  lemma PairTemporaries(c: Ctx, e: Expr, t: nat)
    requires e.Arith? || e.Cmp?
    ensures var ty, t1 := if e.Cmp? then U8 else ValTy(c, e), TempEnd(c, e.l, t);
      var t2 := TempEnd(c, e.r, t1);
      && TempEnd(c, e, t) == AllocEnd(t2, ty.Size())
      && Peak(c, e, t) == Max(Peak(c, e.l, t), Max(Peak(c, e.r, t1), TempEnd(c, e, t)))
      && ResOpd(c, e, t) == TempAt(t2, ty)
  {
    hide TypeOf;
  }

  function PairInsn(e: Expr, dst: Opd, l: Opd, r: Opd): Insn
    requires e.Arith? || e.Cmp?
  {
    if e.Arith? then Bin(e.op, dst, l, r) else CmpI(e.cmp, dst, l, r)
  }

  lemma PairGained(c: Ctx, e: Expr, g0: Gen, g1: Gen, g2: Gen, g3: Gen, l: Opd, r: Opd)
    requires (e.Arith? || e.Cmp?) && Gained(c, e.l, g0, g1, l) && Gained(c, e.r, g1, g2, r)
    requires var ty := if e.Cmp? then U8 else ValTy(c, e);
      g3 == Emitted(Allocated(g2, ty.Size()), PairInsn(e, TempAt(g2.off, ty), l, r))
    ensures Gained(c, e, g0, g3, TempAt(g2.off, if e.Cmp? then U8 else ValTy(c, e)))
  {
    hide Gained, Placed, Len, TempEnd, Peak, ResOpd, At, AllocEnd, TempAt, ValTy;
    var ty := if e.Cmp? then U8 else ValTy(c, e);
    GainedParts(c, e.l, g0, g1, l);
    GainedParts(c, e.r, g1, g2, r);
    Extended(g1.insns, g3.insns, c, |g0.insns|, g0.off, e.l);
    Extended(g2.insns, g3.insns, c, |g1.insns|, g1.off, e.r);
    AtEnd(g2.insns, PairInsn(e, TempAt(g2.off, ty), l, r));
    PairTemporaries(c, e, g0.off);
    PairPlaced(g3.insns, c, |g0.insns|, g0.off, e);
    Lengths(e);
    MkGained(c, e, g0, g3, TempAt(g2.off, ty));
  }

  lemma CommaGained(c: Ctx, e: Expr, g0: Gen, g1: Gen, g2: Gen, l: Opd, r: Opd)
    requires e.Comma? && Gained(c, e.l, g0, g1, l) && Gained(c, e.r, g1.(off := g0.off), g2, r)
    ensures Gained(c, e, g0, g2, r)
  {
    hide Gained, Placed, Len;
    GainedParts(c, e.l, g0, g1, l);
    GainedParts(c, e.r, g1.(off := g0.off), g2, r);
    Extended(g1.insns, g2.insns, c, |g0.insns|, g0.off, e.l);
    CommaPlaced(g2.insns, c, |g0.insns|, g0.off, e);
    Lengths(e);
    MkGained(c, e, g0, g2, r);
  }

  lemma BumpGained(c: Ctx, e: Expr, g0: Gen, g1: Gen)
    requires (e.PreInc? || e.PostInc?) && g0.off <= g0.peak
    requires g1 == if e.PreInc? then Emitted(g0, IncDec(e.up, VarOpd(c, e.x)))
                   else Emitted(Allocated(g0, VarTy(c, e.x).Size()), IncDecP(e.up, TempAt(g0.off, VarTy(c, e.x)), VarOpd(c, e.x)))
    ensures Gained(c, e, g0, g1, if e.PreInc? then VarOpd(c, e.x) else TempAt(g0.off, VarTy(c, e.x)))
  {
    hide At, VarOpd, AllocEnd, TempAt, VarTy;
    AtEnd(g0.insns, g1.insns[|g0.insns|]);
  }

  lemma LogicTemporaries(c: Ctx, e: Expr, t: nat)
    requires e.Conj? || e.Disj?
    ensures var t0 := TempEnd(c, e.l, t);
      && U8.Size() == 1 && IsWord(1)
      && TempEnd(c, e, t) == TempEnd(c, e.r, AllocEnd(t0, 1))
      && Peak(c, e, t) == Max(Peak(c, e.l, t), Peak(c, e.r, AllocEnd(t0, 1)))
      && ResOpd(c, e, t) == TempAt(t0, U8)
  {
  }

  /** OZ and the forward jump, not yet patched. */
  function LogicHead(e: Expr, g1: Gen, l: Opd): Gen
    requires e.Conj? || e.Disj?
  {
    Emitted(Emitted(Allocated(g1, 1), Un(OzOp, TempAt(g1.off, U8), l)), if e.Conj? then Jz(l, 0) else Jnz(l, 0))
  }

  function LogicTail(e: Expr, g3: Gen, dst: Opd, r: Opd): Gen
    requires e.Conj? || e.Disj?
  {
    Emitted(Emitted(g3, Un(OzOp, dst, r)), MaskInsn(e.Conj?, dst))
  }

  lemma HeadFacts(e: Expr, g1: Gen, l: Opd)
    requires e.Conj? || e.Disj?
    ensures var g2, n := LogicHead(e, g1, l), |g1.insns|;
      && g1.insns <= g2.insns && |g2.insns| == n + 2 && g2.insns[n] == Un(OzOp, TempAt(g1.off, U8), l)
      && g2.off == Allocated(g1, 1).off && g2.peak == Allocated(g1, 1).peak
  {
    hide Allocated, TempAt;
    AllocatedInsns(g1, 1);
  }

  lemma AllocatedInsns(g: Gen, size: nat)
    requires IsWord(size)
    ensures Allocated(g, size).insns == g.insns
  {
  }

  lemma TailFacts(e: Expr, g3: Gen, dst: Opd, r: Opd)
    requires e.Conj? || e.Disj?
    ensures var g4, n := LogicTail(e, g3, dst, r), |g3.insns|;
      && g3.insns <= g4.insns && |g4.insns| == n + 2 && g4.off == g3.off && g4.peak == g3.peak
      && g4.insns[n] == Un(OzOp, dst, r) && g4.insns[n + 1] == MaskInsn(e.Conj?, dst)
  {
    hide MaskInsn;
  }

  lemma LogicGained(c: Ctx, e: Expr, g0: Gen, g1: Gen, g3: Gen, g5: Gen, l: Opd, r: Opd)
    requires (e.Conj? || e.Disj?) && Gained(c, e.l, g0, g1, l)
    requires Gained(c, e.r, LogicHead(e, g1, l), g3, r)
    requires var g4 := LogicTail(e, g3, TempAt(g1.off, U8), r);
      && |g1.insns| + 1 < |g4.insns|
      && g5 == g4.(insns := g4.insns[|g1.insns| + 1 := if e.Conj? then Jz(l, |g4.insns|) else Jnz(l, |g4.insns|)])
    ensures Gained(c, e, g0, g5, TempAt(g1.off, U8))
  {
    hide Gained, Placed, Len, TempEnd, Peak, ResOpd, At, AllocEnd, TempAt, MaskInsn, LogicHead, LogicTail;
    var g2 := LogicHead(e, g1, l);
    var g4 := LogicTail(e, g3, TempAt(g1.off, U8), r);
    HeadFacts(e, g1, l);
    TailFacts(e, g3, TempAt(g1.off, U8), r);
    GainedParts(c, e.l, g0, g1, l);
    GainedParts(c, e.r, g2, g3, r);
    LogicTemporaries(c, e, g0.off);
    Lengths(e);
    var jz := |g1.insns| + 1;
    var jump := if e.Conj? then Jz(l, |g4.insns|) else Jnz(l, |g4.insns|);
    LogicKept(c, e, g0, g1, g2, g3, g4, g5, jump);
    AtIndex(g5.insns, |g1.insns|, Un(OzOp, TempAt(g1.off, U8), l));
    AtIndex(g5.insns, jz, jump);
    AtIndex(g5.insns, |g3.insns|, Un(OzOp, TempAt(g1.off, U8), r));
    AtIndex(g5.insns, |g3.insns| + 1, MaskInsn(e.Conj?, TempAt(g1.off, U8)));
    LogicPlaced(g5.insns, c, |g0.insns|, g0.off, e);
    MkGained(c, e, g0, g5, TempAt(g1.off, U8));
  }

  lemma LogicKept(c: Ctx, e: Expr, g0: Gen, g1: Gen, g2: Gen, g3: Gen, g4: Gen, g5: Gen, jump: Insn)
    requires (e.Conj? || e.Disj?) && g0.insns <= g1.insns <= g2.insns <= g3.insns <= g4.insns
    requires |g1.insns| == |g0.insns| + Len(e.l) && |g2.insns| == |g1.insns| + 2 && |g3.insns| == |g2.insns| + Len(e.r)
    requires g5 == g4.(insns := g4.insns[|g1.insns| + 1 := jump])
    requires Placed(g1.insns, c, |g0.insns|, g0.off, e.l) && Placed(g3.insns, c, |g2.insns|, g2.off, e.r)
    ensures Placed(g5.insns, c, |g0.insns|, g0.off, e.l) && Placed(g5.insns, c, |g2.insns|, g2.off, e.r)
  {
    hide Placed, Len;
    PlacedLocal(g1.insns, g5.insns, c, |g0.insns|, g0.off, e.l);
    PlacedLocal(g3.insns, g5.insns, c, |g2.insns|, g2.off, e.r);
  }

  lemma TernTemporaries(c: Ctx, e: Expr, t: nat)
    requires e.Tern?
    ensures var t1 := TernBase(c, e, t);
      && t1 == AllocEnd(TempEnd(c, e.c, t), ValTy(c, e).Size())
      && TempEnd(c, e, t) == TempEnd(c, e.f, t1)
      && Peak(c, e, t) == Max(Peak(c, e.c, t), Max(Peak(c, e.t, t1), Peak(c, e.f, t1)))
      && ResOpd(c, e, t) == TempAt(TempEnd(c, e.c, t), ValTy(c, e))
  {
    hide TypeOf;
  }

  function TernHead(c: Ctx, e: Expr, g1: Gen, k: Opd): Gen
    requires e.Tern?
  {
    Emitted(Allocated(g1, ValTy(c, e).Size()), Jz(k, 0))
  }

  /** The first branch done: its MOV, the jump past the other branch, and the conditional jump patched. */
  function TernMiddle(g1: Gen, g2: Gen, g3: Gen, k: Opd, dst: Opd, a: Opd): Gen
    requires |g1.insns| < |g3.insns|
  {
    var g4 := Emitted(Emitted(g3, Mov(dst, a)), Jmp(0));
    Gen(g4.insns[|g1.insns| := Jz(k, |g4.insns|)], g2.off, g4.peak)
  }

  lemma TernGained(c: Ctx, e: Expr, g0: Gen, g1: Gen, g3: Gen, g5: Gen, g7: Gen, k: Opd, a: Opd, b: Opd)
    requires e.Tern? && Gained(c, e.c, g0, g1, k) && Gained(c, e.t, TernHead(c, e, g1, k), g3, a)
    requires |g1.insns| < |g3.insns|
    requires var dst := TempAt(g1.off, ValTy(c, e));
      var g4 := TernMiddle(g1, TernHead(c, e, g1, k), g3, k, dst, a);
      && Gained(c, e.f, g4, g5, b)
      && var g6 := Emitted(g5, Mov(dst, b));
         |g3.insns| + 1 < |g6.insns| && g7 == g6.(insns := g6.insns[|g3.insns| + 1 := Jmp(|g6.insns|)])
    ensures Gained(c, e, g0, g7, TempAt(g1.off, ValTy(c, e)))
  {
    hide Gained, Placed, Len, TempEnd, Peak, ResOpd, At, AllocEnd, TempAt, ValTy, TernBase;
    var dst, g2 := TempAt(g1.off, ValTy(c, e)), TernHead(c, e, g1, k);
    var g4 := TernMiddle(g1, g2, g3, k, dst, a);
    var g6 := Emitted(g5, Mov(dst, b));
    GainedParts(c, e.c, g0, g1, k);
    GainedParts(c, e.t, g2, g3, a);
    GainedParts(c, e.f, g4, g5, b);
    TernTemporaries(c, e, g0.off);
    Lengths(e);
    var jz, jmp := |g1.insns|, |g3.insns| + 1;
    TernKept(c, e, g0, g1, g2, g3, g4, g6, g7, k, dst, a);
    Extended(g5.insns, g6.insns, c, |g4.insns|, g4.off, e.f);
    Patched(g6.insns, jmp, Jmp(|g6.insns|), c, |g4.insns|, g4.off, e.f);
    AtIndex(g7.insns, jz, Jz(k, |g4.insns|));
    AtIndex(g7.insns, |g3.insns|, Mov(dst, a));
    AtIndex(g7.insns, jmp, Jmp(|g6.insns|));
    AtIndex(g7.insns, |g5.insns|, Mov(dst, b));
    TernPlaced(g7.insns, c, |g0.insns|, g0.off, e);
    MkGained(c, e, g0, g7, dst);
  }

  /** The condition and the first branch stay placed through the rest of the ternary. */
  lemma TernKept(c: Ctx, e: Expr, g0: Gen, g1: Gen, g2: Gen, g3: Gen, g4: Gen, g6: Gen, g7: Gen, k: Opd, dst: Opd, a: Opd)
    requires e.Tern? && g0.insns <= g1.insns <= g3.insns && |g1.insns| == |g0.insns| + Len(e.c)
    requires |g1.insns| < |g3.insns| == |g1.insns| + 1 + Len(e.t) && g4.insns <= g6.insns
    requires g4 == TernMiddle(g1, g2, g3, k, dst, a) && |g3.insns| + 1 < |g6.insns|
    requires g7 == g6.(insns := g6.insns[|g3.insns| + 1 := Jmp(|g6.insns|)])
    requires Placed(g1.insns, c, |g0.insns|, g0.off, e.c) && Placed(g3.insns, c, |g1.insns| + 1, g2.off, e.t)
    ensures Placed(g7.insns, c, |g0.insns|, g0.off, e.c) && Placed(g7.insns, c, |g1.insns| + 1, g2.off, e.t)
  {
    hide Placed, Len;
    PlacedLocal(g1.insns, g7.insns, c, |g0.insns|, g0.off, e.c);
    PlacedLocal(g3.insns, g7.insns, c, |g1.insns| + 1, g2.off, e.t);
  }

  lemma CallTemporaries(c: Ctx, e: Expr, t: nat)
    requires e.Call?
    ensures IsWord(8)
    ensures var t2 := TempEndArgs(c, e.args, AllocEnd(t, 8));
      && TempEnd(c, e, t) == (if HasValue(c, e) then AllocEnd(t2, ValTy(c, e).Size()) else t2)
      && Peak(c, e, t) == Max(PeakArgs(c, e.args, AllocEnd(t, 8)), TempEnd(c, e, t))
      && ResOpd(c, e, t) == (if HasValue(c, e) then TempAt(t2, ValTy(c, e)) else Imm(false, 0, 0))
  {
    hide TypeOf;
  }

  lemma GainedArgsParts(c: Ctx, args: Args, g0: Gen, g1: Gen)
    requires GainedArgs(c, args, g0, g1)
    ensures g0.insns <= g1.insns && |g1.insns| == |g0.insns| + LenArgs(args)
    ensures PlacedArgs(g1.insns, c, |g0.insns|, g0.off, args)
    ensures g1.off == TempEndArgs(c, args, g0.off) && g1.peak == Max(g0.peak, PeakArgs(c, args, g0.off))
    ensures g0.off <= g1.off <= g1.peak
  {
    hide PlacedArgs, LenArgs;
  }

  /** The call: PUSHR, arguments, the call instruction, and PUSHR's return address patched to it. */
  lemma CallGained(c: Ctx, e: Expr, g0: Gen, g1: Gen, g2: Gen, res: Opd)
    requires e.Call? && e.g < |c.fns| && IsWord(8)
    requires GainedArgs(c, e.args, Emitted(Allocated(g0, 8), PushR(0, TempAt(g0.off, U64))), g1)
    requires |g0.insns| < |g1.insns|
    requires res == if HasValue(c, e) then TempAt(g1.off, ValTy(c, e)) else Imm(false, 0, 0)
    requires var ssp := TempAt(g0.off, U64);
      var call := if HasValue(c, e) then CallV(res, c.fns[e.g], ssp) else CallI(c.fns[e.g], ssp);
      var ga := if HasValue(c, e) then Allocated(g1, ValTy(c, e).Size()) else g1;
      var gp := ga.(insns := ga.insns[|g0.insns| := PushR(|g1.insns|, ssp)]);
      g2 == Emitted(gp, call)
    ensures Gained(c, e, g0, g2, res)
  {
    hide Gained, GainedArgs, Placed, PlacedArgs, Len, LenArgs, TempEnd, TempEndArgs, Peak, PeakArgs, ResOpd, At, AllocEnd, TempAt, ValTy, HasValue;
    var h := Emitted(Allocated(g0, 8), PushR(0, TempAt(g0.off, U64)));
    GainedArgsParts(c, e.args, h, g1);
    CallTemporaries(c, e, g0.off);
    Lengths(e);
    assert SameCode(g1.insns, g2.insns, |h.insns|, |h.insns| + LenArgs(e.args));
    ArgsLocal(g1.insns, g2.insns, c, |h.insns|, h.off, e.args);
    AtIndex(g2.insns, |g0.insns|, PushR(|g1.insns|, TempAt(g0.off, U64)));
    AtIndex(g2.insns, |g1.insns|, CallInsn(c, e, g0.off));
    CallPlaced(g2.insns, c, |g0.insns|, g0.off, e);
    assert g0.insns <= g2.insns;
    MkGained(c, e, g0, g2, res);
  }

  // ---------- argument lists, one at a time ----------

  /** With the first arguments generated, whatever generates the rest generates all. */
  ghost predicate ArgsSoFar(c: Ctx, args: Args, g0: Gen, rest: Args, g: Gen) {
    && g0.insns <= g.insns && g.off <= g.peak
    && |g.insns| + LenArgs(rest) == |g0.insns| + LenArgs(args)
    && TempEndArgs(c, rest, g.off) == TempEndArgs(c, args, g0.off)
    && Max(g.peak, PeakArgs(c, rest, g.off)) == Max(g0.peak, PeakArgs(c, args, g0.off))
    && forall code: seq<Insn> :: g.insns <= code && PlacedArgs(code, c, |g.insns|, g.off, rest) ==>
         PlacedArgs(code, c, |g0.insns|, g0.off, args)
  }

  lemma ArgsStart(c: Ctx, args: Args, g0: Gen)
    requires g0.off <= g0.peak
    ensures ArgsSoFar(c, args, g0, args, g0)
  {
  }

  lemma ArgsStep(c: Ctx, args: Args, g0: Gen, rest: Args, g: Gen, g1: Gen, res: Opd)
    requires ArgsSoFar(c, args, g0, rest, g) && rest.Arg? && Gained(c, rest.head, g, g1, res)
    ensures ArgsSoFar(c, args, g0, rest.tail, Emitted(g1, Push(res)))
  {
    hide Gained, Placed, TempEnd, Peak, ResOpd, At, Len;
    GainedParts(c, rest.head, g, g1, res);
    var g2 := Emitted(g1, Push(res));
    forall code: seq<Insn> | g2.insns <= code && PlacedArgs(code, c, |g2.insns|, g2.off, rest.tail)
      ensures PlacedArgs(code, c, |g0.insns|, g0.off, args)
    {
      Extended(g1.insns, code, c, |g.insns|, g.off, rest.head);
      AtIndex(code, |g1.insns|, Push(res));
      ArgPlaced(code, c, |g.insns|, g.off, rest);
      assert PlacedArgs(code, c, |g.insns|, g.off, rest);
    }
  }

  lemma ArgsEnd(c: Ctx, args: Args, g0: Gen, g: Gen)
    requires ArgsSoFar(c, args, g0, NoArgs, g)
    ensures GainedArgs(c, args, g0, g)
  {
    assert PlacedArgs(g.insns, c, |g.insns|, g.off, NoArgs);
  }
}
