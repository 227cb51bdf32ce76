/** Legality of statements and of whole functions, from typing alone. */
module LegalityStmts {
  import opened Options
  import opened Bytes
  import opened Words
  import opened Ast
  import opened Layout
  import opened Insn
  import opened Machine
  import opened Codegen
  import opened Shapes
  import opened Window
  import opened Emission
  import opened SimBase
  import opened SimCalls
  import opened Legality
  import Linking

  /** An expression and the instruction after it that reads its operand. */
  lemma ReaderLegal(code: seq<Insn>, c: Ctx, b: Bounds, p: nat, e: Expr, insn: Insn)
    requires Around(c, b, p, p + Len(e) + 1) && TypeOf(c.p, c.f, e).TInt? && Peak(c, e, 0) <= b.tsize
    requires Placed(code, c, p, 0, e) && At(code, p + Len(e), insn)
    requires insn.Jz? || insn.Jnz? || insn.RetV?
    requires if insn.RetV? then insn == RetV(ResOpd(c, e, 0), c.frame + 16)
             else insn.cond == ResOpd(c, e, 0) && Inside(b, insn.loc)
    ensures LegalIn(code, b, p, p + Len(e) + 1)
  {
    hide *;
    var n := p + Len(e);
    AroundParts(c, b, p, n + 1);
    Narrower(c, b, p, n + 1, p, n);
    Linking.NotErr(c, e);
    ExprLegal(code, c, b, p, 0, e);
    ValueFits(c, b, p, n, e, 0);
    if insn.RetV? {
      ReturnLegal(b, ResOpd(c, e, 0));
    } else {
      Bounded(b, insn);
    }
    OneLegal(code, b, n, insn);
    JoinLegal(code, b, p, n, n + 1);
  }

  lemma ReturnLegal(b: Bounds, o: Opd)
    requires Fits(b, o)
    ensures Legal(b, RetV(o, b.frame + 16))
  {
    hide Fits;
  }

  lemma PlainLegal(b: Bounds, i: Insn)
    requires i.Nop? || i.WLab? || i.NoIntI? || i.IntI? || (i.Jmp? && Inside(b, i.loc)) || (i.RetI? && i.rsize == b.frame + 16)
             || (i.IncSp? && i.addend % 8 == 0 && i.tsize == b.tsize)
    ensures Legal(b, i)
  {
    hide Inside;
  }

  lemma {:induction false} InitLegal(code: seq<Insn>, c: Ctx, b: Bounds, p: nat, end: nat, names: seq<nat>, src: Opd, ty: Ty)
    requires Around(c, b, p, end) && Fits(b, src) && OpdIs(src, ty) && PlacedInit(code, c, p, names, src)
    requires p + |names| <= end
    requires forall x :: x in names ==> Scalar(c.f, x) && Declared(c.f, x) && c.f.vars[x].ty.value == ty
    ensures LegalIn(code, b, p, p + |names|)
    decreases |names|
  {
    hide *;
    InitParts(code, c, p, names, src);
    if names == [] {
      NoneLegal(code, b, p);
    } else {
      var x := names[0];
      assert x in names;
      VarFits(c, b, p, end, x);
      MoveLegal(b, VarOpd(c, x), src, ty);
      OneLegal(code, b, p, Mov(VarOpd(c, x), src));
      Narrower(c, b, p, end, p + 1, end);
      InitLegal(code, c, b, p + 1, end, names[1..], src, ty);
      JoinLegal(code, b, p, p + 1, p + |names|);
    }
  }

  lemma InitParts(code: seq<Insn>, c: Ctx, p: nat, names: seq<nat>, src: Opd)
    requires PlacedInit(code, c, p, names, src)
    ensures names != [] ==> At(code, p, Mov(VarOpd(c, names[0]), src)) && PlacedInit(code, c, p + 1, names[1..], src)
  {
    hide At, VarOpd;
  }

  /** Every instruction of a checked statement's code is legal. */
  lemma {:induction false} StmtLegal(code: seq<Insn>, c: Ctx, b: Bounds, p: nat, s: Stmt)
    requires Around(c, b, p, p + LenS(s)) && StmtOk(c.p, c.f, s) && PlacedS(code, c, p, s) && PeakS(c, s) <= b.tsize
    ensures LegalIn(code, b, p, p + LenS(s))
    decreases s, 1
  {
    hide Around, Placed, PlacedInit, PlacedAll, PlacedElse, At, ResOpd, Len, LenAll, LenElse, TypeOf, StmtsOk, ElseOk, Scalar, Declared;
    hide Legal, LegalIn, Inside, Peak, PeakAll, PeakElse, Wf, FnsCallable;
    var end := p + LenS(s);
    AroundParts(c, b, p, end);
    match s
    case Decl(names, init) => DeclLegal(code, c, b, p, names, init);
    case ExprS(e) =>
      Narrower(c, b, p, end, p, p + Len(e));
      ExprLegal(code, c, b, p, 0, e);
      PlainLegal(b, Nop);
      OneLegal(code, b, p + Len(e), Nop);
      JoinLegal(code, b, p, p + Len(e), end);
    case Block(ss) => AllLegal(code, c, b, p, ss);
    case NoInt(ss) =>
      Narrower(c, b, p, end, p + 1, end - 1);
      AllLegal(code, c, b, p + 1, ss);
      PlainLegal(b, NoIntI);
      PlainLegal(b, IntI);
      OneLegal(code, b, p, NoIntI);
      OneLegal(code, b, end - 1, IntI);
      JoinLegal(code, b, p, p + 1, end - 1);
      JoinLegal(code, b, p, end - 1, end);
    case If(els) =>
      AroundInside(c, b, p, end, end);
      ElseLegal(code, c, b, p, end, els);
    case While(_, _) => LoopLegal(code, c, b, p, s);
    case DoWhile(_, _) => LoopLegal(code, c, b, p, s);
    case Return(v) =>
      if v.Some? {
        ReaderLegal(code, c, b, p, v.value, RetV(ResOpd(c, v.value, 0), c.frame + 16));
      } else {
        PlainLegal(b, RetI(c.frame + 16));
        OneLegal(code, b, p, RetI(c.frame + 16));
      }
    case WLabel(l) =>
      PlainLegal(b, WLab(l));
      OneLegal(code, b, p, WLab(l));
  }

  lemma DeclLegal(code: seq<Insn>, c: Ctx, b: Bounds, p: nat, names: seq<nat>, init: Option<Expr>)
    requires var s := Decl(names, init);
      Around(c, b, p, p + LenS(s)) && StmtOk(c.p, c.f, s) && PlacedS(code, c, p, s) && PeakS(c, s) <= b.tsize
    ensures LegalIn(code, b, p, p + LenS(Decl(names, init)))
  {
    hide Around, Placed, PlacedInit, At, ResOpd, Len, TypeOf, Scalar, Declared, Legal, LegalIn, Peak;
    if init.None? {
      NoneLegal(code, b, p);
    } else {
      var n := p + Len(init.value);
      var end := n + |names|;
      Narrower(c, b, p, end, p, n);
      Narrower(c, b, p, end, n, end);
      ExprLegal(code, c, b, p, 0, init.value);
      if names == [] {
        NoneLegal(code, b, n);
      } else {
        assert names[0] in names;
        ValueFits(c, b, p, n, init.value, 0);
        InitLegal(code, c, b, n, end, names, ResOpd(c, init.value, 0), TypeOf(c.p, c.f, init.value).ty);
      }
      JoinLegal(code, b, p, n, end);
    }
  }

  lemma {:induction false} LoopLegal(code: seq<Insn>, c: Ctx, b: Bounds, p: nat, s: Stmt)
    requires s.While? || s.DoWhile?
    requires Around(c, b, p, p + LenS(s)) && StmtOk(c.p, c.f, s) && PlacedS(code, c, p, s) && PeakS(c, s) <= b.tsize
    ensures LegalIn(code, b, p, p + LenS(s))
    decreases s, 0
  {
    hide Around, Placed, PlacedAll, At, ResOpd, Len, LenAll, TypeOf, StmtsOk, Legal, LegalIn, Inside, Peak, PeakAll;
    var end := p + LenS(s);
    AroundInside(c, b, p, end, p);
    AroundInside(c, b, p, end, end);
    if s.While? {
      var pb := p + Len(s.c) + 1;
      Narrower(c, b, p, end, p, pb);
      Narrower(c, b, p, end, pb, end - 1);
      ReaderLegal(code, c, b, p, s.c, Jz(ResOpd(c, s.c, 0), end));
      AllLegal(code, c, b, pb, s.body);
      PlainLegal(b, Jmp(p));
      OneLegal(code, b, end - 1, Jmp(p));
      JoinLegal(code, b, p, pb, end - 1);
      JoinLegal(code, b, p, end - 1, end);
    } else {
      var q := p + LenAll(s.body);
      Narrower(c, b, p, end, p, q);
      Narrower(c, b, p, end, q, end);
      AllLegal(code, c, b, p, s.body);
      ReaderLegal(code, c, b, q, s.c, Jnz(ResOpd(c, s.c, 0), p));
      JoinLegal(code, b, p, q, end);
    }
  }

  lemma {:induction false} AllLegal(code: seq<Insn>, c: Ctx, b: Bounds, p: nat, ss: Stmts)
    requires Around(c, b, p, p + LenAll(ss)) && StmtsOk(c.p, c.f, ss) && PlacedAll(code, c, p, ss) && PeakAll(c, ss) <= b.tsize
    ensures LegalIn(code, b, p, p + LenAll(ss))
    decreases ss, 0
  {
    hide Around, PlacedS, LenS, StmtOk, PeakS, Legal, LegalIn;
    if ss.Nil? {
      NoneLegal(code, b, p);
    } else {
      var q, end := p + LenS(ss.head), p + LenAll(ss);
      Narrower(c, b, p, end, p, q);
      Narrower(c, b, p, end, q, end);
      StmtLegal(code, c, b, p, ss.head);
      AllLegal(code, c, b, q, ss.tail);
      JoinLegal(code, b, p, q, end);
    }
  }

  lemma {:induction false} ElseLegal(code: seq<Insn>, c: Ctx, b: Bounds, p: nat, end: nat, els: Else)
    requires Around(c, b, p, p + LenElse(els)) && ElseOk(c.p, c.f, els) && PlacedElse(code, c, p, end, els)
    requires Inside(b, end) && PeakElse(c, els) <= b.tsize
    ensures LegalIn(code, b, p, p + LenElse(els))
    decreases els, 0
  {
    hide Around, Placed, PlacedAll, At, ResOpd, Len, LenAll, TypeOf, StmtsOk, Legal, LegalIn, Inside, Peak, PeakAll;
    match els
    case NoElse => NoneLegal(code, b, p);
    case ElseBlock(ss) => AllLegal(code, c, b, p, ss);
    case Elif(k, ss, rest) =>
      var last, pb := p + LenElse(els), p + Len(k) + 1;
      var pe := pb + LenAll(ss) + 1;
      Narrower(c, b, p, last, p, pb);
      Narrower(c, b, p, last, pb, pe - 1);
      Narrower(c, b, p, last, pe, last);
      AroundInside(c, b, p, last, pe);
      ReaderLegal(code, c, b, p, k, Jz(ResOpd(c, k, 0), pe));
      AllLegal(code, c, b, pb, ss);
      PlainLegal(b, Jmp(end));
      OneLegal(code, b, pe - 1, Jmp(end));
      ElseLegal(code, c, b, pe, end, rest);
      JoinLegal(code, b, p, pb, pe - 1);
      JoinLegal(code, b, p, pe - 1, pe);
      JoinLegal(code, b, p, pe, last);
  }

  // ---------- whole functions ----------

  /** The temporaries, the frame and the code of function g. */
  function BoundsOf(m: Image, g: nat): Bounds
    requires |m.locs| == |m.w.prog| && g < |m.w.prog| && DeclsOk(m.w.prog[g])
  {
    var c := CtxOf(m.w.prog, m.w.prog[g], LinkedFns(m.locs));
    Bounds(PeakAll(c, c.f.body), c.frame, m.locs[g], m.locs[g] + LenF(c.f))
  }

  lemma LinkedCallable(locs: seq<nat>)
    ensures forall g :: 0 <= g < |locs| ==> Callable(LinkedFns(locs)[g])
  {
  }

  lemma ProgramFunction(m: Image, g: nat)
    requires Compiled(m) && g < |m.w.prog|
    ensures |m.locs| == |m.w.locals| == |m.w.prog| && FuncPlaced(m, g)
  {
    hide FuncPlaced;
  }

  lemma LocalsAligned(f: Func)
    requires DeclsOk(f)
    ensures FrameLay(f).frame >= ArgsSize(f) && (FrameLay(f).frame - ArgsSize(f)) % 8 == 0
  {
    hide *;
    FrameLayGood(f);
    MultiplesApart(FrameLay(f).frame, ArgsSize(f));
  }

  lemma MultiplesApart(a: nat, b: nat)
    requires b <= a && a % 8 == 0 && b % 8 == 0
    ensures (a - b) % 8 == 0
  {
  }

  lemma FuncAround(m: Image, g: nat)
    requires |m.locs| == |m.w.locals| == |m.w.prog| && g < |m.w.prog| && FuncPlaced(m, g)
    ensures DeclsOk(m.w.prog[g])
    ensures var c, b := CtxOf(m.w.prog, m.w.prog[g], LinkedFns(m.locs)), BoundsOf(m, g);
      && Around(c, b, b.lo + 1, b.lo + 1 + LenAll(c.f.body)) && StmtsOk(c.p, c.f, c.f.body)
      && b.tsize == PeakAll(c, c.f.body) && b.frame == c.frame && b.hi == b.lo + 1 + LenAll(c.f.body) + 1
      && PlacedF(m.code, c, b.lo)
      && c.frame == FrameLay(c.f).frame && c.f == m.w.prog[g]
  {
    hide PlacedF, DeclsOk, FrameLay, ArgsSize, StmtsOk, PeakAll, LenAll, Callable;
    LinkedCallable(m.locs);
  }

  /** Every instruction of every function of a checked program is legal: its operands have the sizes and signs its
      handler checks for, they lie in the temporaries and the frame that INCSP makes, and its jumps stay in the
      function.  Nothing is assumed of the values the program computes. */
  lemma FunctionLegal(m: Image, g: nat, i: nat)
    requires Compiled(m) && g < |m.w.prog|
    ensures |m.locs| == |m.w.prog| && DeclsOk(m.w.prog[g])
    ensures var b := BoundsOf(m, g); b.lo <= i < b.hi ==> i < |m.code| && Legal(b, m.code[i])
  {
    hide *;
    ProgramFunction(m, g);
    FuncAround(m, g);
    var c, b := CtxOf(m.w.prog, m.w.prog[g], LinkedFns(m.locs)), BoundsOf(m, g);
    Linking.FunctionParts(m.code, c, b.lo);
    LocalsAligned(c.f);
    PlainLegal(b, IncSp(c.frame - ArgsSize(c.f), b.tsize));
    PlainLegal(b, RetI(c.frame + 16));
    OneLegal(m.code, b, b.lo, IncSp(c.frame - ArgsSize(c.f), b.tsize));
    OneLegal(m.code, b, b.hi - 1, RetI(c.frame + 16));
    AllLegal(m.code, c, b, b.lo + 1, c.f.body);
    JoinLegal(m.code, b, b.lo, b.lo + 1, b.hi - 1);
    JoinLegal(m.code, b, b.lo, b.hi - 1, b.hi);
    if b.lo <= i < b.hi {
      PickLegal(m.code, b, b.lo, b.hi, i);
    }
  }

  lemma PickLegal(code: seq<Insn>, b: Bounds, from: nat, to: nat, i: nat)
    requires LegalIn(code, b, from, to) && from <= i < to
    ensures i < |code| && Legal(b, code[i])
  {
    hide Legal;
    assert LegalAt(code, b, i);
  }
}
