/** What emitting the code of a statement does to the generator's state. */
module EmissionStmts {
  import opened Options
  import opened Words
  import opened Ast
  import opened Layout
  import opened Insn
  import opened Codegen
  import opened Shapes
  import opened Window
  import opened Emission

  /** Generating a statement appends its code; no temporary stays allocated. */
  ghost predicate GainedS(c: Ctx, s: Stmt, g0: Gen, g1: Gen) {
    && g0.insns <= g1.insns && |g1.insns| == |g0.insns| + LenS(s)
    && PlacedS(g1.insns, c, |g0.insns|, s) && g1.off == 0 && g1.peak == Max(g0.peak, PeakS(c, s))
  }

  ghost predicate GainedAll(c: Ctx, ss: Stmts, g0: Gen, g1: Gen) {
    && g0.insns <= g1.insns && |g1.insns| == |g0.insns| + LenAll(ss)
    && PlacedAll(g1.insns, c, |g0.insns|, ss) && g1.off == 0 && g1.peak == Max(g0.peak, PeakAll(c, ss))
  }

  lemma GainedSParts(c: Ctx, s: Stmt, g0: Gen, g1: Gen)
    requires GainedS(c, s, g0, g1)
    ensures g0.insns <= g1.insns && |g1.insns| == |g0.insns| + LenS(s)
    ensures PlacedS(g1.insns, c, |g0.insns|, s) && g1.off == 0 && g1.peak == Max(g0.peak, PeakS(c, s))
  {
    hide PlacedS, LenS, PeakS;
  }

  lemma GainedAllParts(c: Ctx, ss: Stmts, g0: Gen, g1: Gen)
    requires GainedAll(c, ss, g0, g1)
    ensures g0.insns <= g1.insns && |g1.insns| == |g0.insns| + LenAll(ss)
    ensures PlacedAll(g1.insns, c, |g0.insns|, ss) && g1.off == 0 && g1.peak == Max(g0.peak, PeakAll(c, ss))
  {
    hide PlacedAll, LenAll, PeakAll;
  }

  // ---------- statement lists, one at a time ----------

  ghost predicate AllSoFar(c: Ctx, ss: Stmts, g0: Gen, rest: Stmts, g: Gen) {
    && g0.insns <= g.insns && g.off == 0
    && |g.insns| + LenAll(rest) == |g0.insns| + LenAll(ss)
    && Max(g.peak, PeakAll(c, rest)) == Max(g0.peak, PeakAll(c, ss))
    && forall code: seq<Insn> :: g.insns <= code && PlacedAll(code, c, |g.insns|, rest) ==>
         PlacedAll(code, c, |g0.insns|, ss)
  }

  lemma AllStart(c: Ctx, ss: Stmts, g0: Gen)
    requires g0.off == 0
    ensures AllSoFar(c, ss, g0, ss, g0)
  {
  }

  lemma AllStep(c: Ctx, ss: Stmts, g0: Gen, rest: Stmts, g: Gen, g1: Gen)
    requires AllSoFar(c, ss, g0, rest, g) && rest.Cons? && GainedS(c, rest.head, g, g1)
    ensures AllSoFar(c, ss, g0, rest.tail, g1)
  {
    hide GainedS, PlacedS, LenS, PeakS;
    GainedSParts(c, rest.head, g, g1);
    forall code: seq<Insn> | g1.insns <= code && PlacedAll(code, c, |g1.insns|, rest.tail)
      ensures PlacedAll(code, c, |g0.insns|, ss)
    {
      PlacedSLocal(g1.insns, code, c, |g.insns|, rest.head);
      assert PlacedAll(code, c, |g.insns|, rest);
    }
  }

  lemma AllEnd(c: Ctx, ss: Stmts, g0: Gen, g: Gen)
    requires AllSoFar(c, ss, g0, Nil, g)
    ensures GainedAll(c, ss, g0, g)
  {
    assert PlacedAll(g.insns, c, |g.insns|, Nil);
  }

  // ---------- the statement forms ----------

  lemma {:induction false} InitPlaced(code: seq<Insn>, c: Ctx, p: nat, names: seq<nat>, src: Opd)
    requires forall k :: 0 <= k < |names| ==> At(code, p + k, Mov(VarOpd(c, names[k]), src))
    ensures PlacedInit(code, c, p, names, src)
    decreases |names|
  {
    hide At, VarOpd;
    if names != [] {
      assert At(code, p + 0, Mov(VarOpd(c, names[0]), src));
      forall k | 0 <= k < |names[1..]| ensures At(code, p + 1 + k, Mov(VarOpd(c, names[1..][k]), src)) {
        assert At(code, p + (k + 1), Mov(VarOpd(c, names[k + 1]), src));
      }
      InitPlaced(code, c, p + 1, names[1..], src);
    }
  }

  lemma DeclGained(c: Ctx, s: Stmt, g0: Gen, g1: Gen, g2: Gen, src: Opd)
    requires s.Decl? && s.init.Some? && g0.off == 0 && Gained(c, s.init.value, g0, g1, src)
    requires g1.insns <= g2.insns && |g2.insns| == |g1.insns| + |s.names| && g2.off == 0 && g2.peak == g1.peak
    requires forall k :: 0 <= k < |s.names| ==> g2.insns[|g1.insns| + k] == Mov(VarOpd(c, s.names[k]), src)
    ensures GainedS(c, s, g0, g2)
  {
    hide Gained, Placed, PlacedInit, Len, Peak, TempEnd, ResOpd, VarOpd;
    GainedParts(c, s.init.value, g0, g1, src);
    Extended(g1.insns, g2.insns, c, |g0.insns|, 0, s.init.value);
    InitPlaced(g2.insns, c, |g1.insns|, s.names, src);
  }

  lemma ExprSGained(c: Ctx, s: Stmt, g0: Gen, g1: Gen, src: Opd)
    requires s.ExprS? && g0.off == 0 && Gained(c, s.e, g0, g1, src)
    ensures GainedS(c, s, g0, Emitted(g1, Nop).(off := 0))
  {
    hide Gained, Placed, Len, Peak, TempEnd, ResOpd;
    GainedParts(c, s.e, g0, g1, src);
    Extended(g1.insns, g1.insns + [Nop], c, |g0.insns|, 0, s.e);
  }

  lemma BlockGained(c: Ctx, s: Stmt, g0: Gen, g1: Gen)
    requires s.Block? && GainedAll(c, s.body, g0, g1)
    ensures GainedS(c, s, g0, g1)
  {
    hide PlacedAll, LenAll, PeakAll;
  }

  lemma NoIntGained(c: Ctx, s: Stmt, g0: Gen, g1: Gen)
    requires s.NoInt? && GainedAll(c, s.body, Emitted(g0, NoIntI), g1)
    ensures GainedS(c, s, g0, Emitted(g1, IntI))
  {
    hide GainedAll, PlacedAll, LenAll, PeakAll;
    GainedAllParts(c, s.body, Emitted(g0, NoIntI), g1);
    AllExtended(g1.insns, g1.insns + [IntI], c, |g0.insns| + 1, s.body);
  }

  lemma AllExtended(a: seq<Insn>, b: seq<Insn>, c: Ctx, p: nat, ss: Stmts)
    requires a <= b && p + LenAll(ss) <= |a| && PlacedAll(a, c, p, ss)
    ensures PlacedAll(b, c, p, ss)
  {
    hide PlacedAll, LenAll;
    PlacedAllLocal(a, b, c, p, ss);
  }

  lemma ReturnGained(c: Ctx, s: Stmt, g0: Gen, g1: Gen, src: Opd)
    requires s.Return? && g0.off == 0
    requires s.val.Some? ==> Gained(c, s.val.value, g0, g1, src)
    requires s.val.None? ==> g1 == g0
    ensures GainedS(c, s, g0, Emitted(g1, if s.val.Some? then RetV(src, c.frame + 16) else RetI(c.frame + 16)).(off := 0))
  {
    hide Gained, Placed, Len, Peak, TempEnd, ResOpd;
    if s.val.Some? {
      GainedParts(c, s.val.value, g0, g1, src);
      Extended(g1.insns, g1.insns + [RetV(src, c.frame + 16)], c, |g0.insns|, 0, s.val.value);
    }
  }

  lemma WhileGained(c: Ctx, s: Stmt, g0: Gen, g1: Gen, g3: Gen, cond: Opd)
    requires s.While? && g0.off == 0 && Gained(c, s.c, g0, g1, cond)
    requires GainedAll(c, s.body, Emitted(g1, Jz(cond, 0)).(off := 0), g3) && |g1.insns| < |g3.insns|
    ensures var g4 := Emitted(g3, Jmp(|g0.insns|));
      GainedS(c, s, g0, g4.(insns := g4.insns[|g1.insns| := Jz(cond, |g4.insns|)]))
  {
    hide Gained, GainedAll, Placed, PlacedAll, Len, LenAll, Peak, PeakAll, TempEnd, ResOpd, At;
    var g2 := Emitted(g1, Jz(cond, 0)).(off := 0);
    var g4 := Emitted(g3, Jmp(|g0.insns|));
    var code := g4.insns[|g1.insns| := Jz(cond, |g4.insns|)];
    GainedParts(c, s.c, g0, g1, cond);
    GainedAllParts(c, s.body, g2, g3);
    PlacedLocal(g1.insns, code, c, |g0.insns|, 0, s.c);
    PlacedAllLocal(g3.insns, code, c, |g2.insns|, s.body);
    AtIndex(code, |g1.insns|, Jz(cond, |g4.insns|));
    AtIndex(code, |g3.insns|, Jmp(|g0.insns|));
  }

  lemma DoWhileGained(c: Ctx, s: Stmt, g0: Gen, g1: Gen, g2: Gen, cond: Opd)
    requires s.DoWhile? && GainedAll(c, s.body, g0, g1) && Gained(c, s.c, g1, g2, cond)
    ensures GainedS(c, s, g0, Emitted(g2, Jnz(cond, |g0.insns|)).(off := 0))
  {
    hide Gained, GainedAll, Placed, PlacedAll, Len, LenAll, Peak, PeakAll, TempEnd, ResOpd;
    GainedAllParts(c, s.body, g0, g1);
    GainedParts(c, s.c, g1, g2, cond);
    var code := g2.insns + [Jnz(cond, |g0.insns|)];
    AllExtended(g1.insns, code, c, |g0.insns|, s.body);
    Extended(g2.insns, code, c, |g1.insns|, 0, s.c);
  }

  // ---------- conditionals ----------

  /** `code` is `a` with every end jump aimed at `end`, and possibly more. */
  ghost predicate Aimed(a: seq<Insn>, code: seq<Insn>, ends: seq<nat>, end: nat) {
    && |a| <= |code|
    && forall i :: 0 <= i < |a| ==> code[i] == if i in ends then Jmp(end) else a[i]
  }

  /** With the first branches generated and their end jumps at `ends` still to be aimed, whatever generates the
      rest and aims the jumps generates the whole conditional. */
  ghost predicate ElseSoFar(c: Ctx, els: Else, g0: Gen, rest: Else, g: Gen, ends: seq<nat>) {
    && g0.insns <= g.insns && g.off == 0
    && |g.insns| + LenElse(rest) == |g0.insns| + LenElse(els)
    && Max(g.peak, PeakElse(c, rest)) == Max(g0.peak, PeakElse(c, els))
    && (forall k :: 0 <= k < |ends| ==> |g0.insns| <= ends[k] < |g.insns|)
    && forall code: seq<Insn>, end: nat :: Aimed(g.insns, code, ends, end) && PlacedElse(code, c, |g.insns|, end, rest)
         ==> PlacedElse(code, c, |g0.insns|, end, els)
  }

  lemma ElseStart(c: Ctx, els: Else, g0: Gen)
    requires g0.off == 0
    ensures ElseSoFar(c, els, g0, els, g0, [])
  {
  }

  /** A branch: the condition, the jump to the next branch, the block, and the unaimed end jump. */
  function Branch(g1: Gen, g3: Gen, cond: Opd): Gen
    requires |g1.insns| < |g3.insns|
  {
    var g4 := Emitted(g3, Jmp(0));
    g4.(insns := g4.insns[|g1.insns| := Jz(cond, |g4.insns|)])
  }

  lemma ElseStep(c: Ctx, els: Else, g0: Gen, rest: Else, g: Gen, ends: seq<nat>, g1: Gen, g3: Gen, cond: Opd)
    requires ElseSoFar(c, els, g0, rest, g, ends) && rest.Elif? && Gained(c, rest.c, g, g1, cond)
    requires GainedAll(c, rest.body, Emitted(g1, Jz(cond, 0)).(off := 0), g3) && |g1.insns| < |g3.insns|
    ensures ElseSoFar(c, els, g0, rest.els, Branch(g1, g3, cond), ends + [|g3.insns|])
  {
    hide Gained, GainedAll, Placed, PlacedAll, Len, LenAll, Peak, PeakAll, TempEnd, ResOpd, At;
    var g2 := Emitted(g1, Jz(cond, 0)).(off := 0);
    var g4 := Branch(g1, g3, cond);
    GainedParts(c, rest.c, g, g1, cond);
    GainedAllParts(c, rest.body, g2, g3);
    var ends' := ends + [|g3.insns|];
    forall code: seq<Insn>, end: nat | Aimed(g4.insns, code, ends', end) && PlacedElse(code, c, |g4.insns|, end, rest.els)
      ensures PlacedElse(code, c, |g0.insns|, end, els)
    {
      BranchPlaced(c, rest, g, ends, g1, g2, g3, cond, code, end);
    }
  }

  lemma BranchPlaced(c: Ctx, rest: Else, g: Gen, ends: seq<nat>, g1: Gen, g2: Gen, g3: Gen, cond: Opd, code: seq<Insn>, end: nat)
    requires rest.Elif? && g.off == 0 && g.insns <= g1.insns && |g1.insns| == |g.insns| + Len(rest.c)
    requires Placed(g1.insns, c, |g.insns|, 0, rest.c) && cond == ResOpd(c, rest.c, 0)
    requires g2.insns == g1.insns + [Jz(cond, 0)] && g2.insns <= g3.insns && |g3.insns| == |g2.insns| + LenAll(rest.body)
    requires PlacedAll(g3.insns, c, |g2.insns|, rest.body)
    requires forall k :: 0 <= k < |ends| ==> ends[k] < |g.insns|
    requires Aimed(Branch(g1, g3, cond).insns, code, ends + [|g3.insns|], end)
    requires PlacedElse(code, c, |g3.insns| + 1, end, rest.els)
    ensures Aimed(g.insns, code, ends, end) && PlacedElse(code, c, |g.insns|, end, rest)
  {
    hide Placed, PlacedAll, Len, LenAll, ResOpd, At;
    var a := Branch(g1, g3, cond).insns;
    var ends' := ends + [|g3.insns|];
    assert |g3.insns| in ends';
    forall i | |g.insns| <= i < |g3.insns| ensures code[i] == a[i] {
      assert i !in ends';
    }
    PlacedLocal(g1.insns, code, c, |g.insns|, 0, rest.c);
    PlacedAllLocal(g3.insns, code, c, |g2.insns|, rest.body);
    AtIndex(code, |g1.insns|, Jz(cond, |g3.insns| + 1));
    AtIndex(code, |g3.insns|, Jmp(end));
  }

  /** The else block, if there is one. */
  lemma ElseTail(c: Ctx, els: Else, g0: Gen, rest: Else, g: Gen, ends: seq<nat>, g1: Gen, code: seq<Insn>)
    requires ElseSoFar(c, els, g0, rest, g, ends) && !rest.Elif?
    requires if rest.ElseBlock? then GainedAll(c, rest.body, g, g1) else g1 == g
    requires |code| == |g1.insns| && Aimed(g1.insns, code, ends, |g1.insns|)
    ensures PlacedElse(code, c, |g0.insns|, |g1.insns|, els) && |g1.insns| == |g0.insns| + LenElse(els)
    ensures g1.off == 0 && g1.peak == Max(g0.peak, PeakElse(c, els)) && g0.insns <= code
  {
    hide PlacedAll, LenAll, PeakAll;
    if rest.ElseBlock? {
      forall i | |g.insns| <= i < |g1.insns| ensures code[i] == g1.insns[i] {
        assert i !in ends;
      }
      PlacedAllLocal(g1.insns, code, c, |g.insns|, rest.body);
    }
    assert PlacedElse(code, c, |g.insns|, |g1.insns|, rest);
    assert Aimed(g.insns, code, ends, |g1.insns|);
  }

  lemma IfGained(c: Ctx, s: Stmt, g0: Gen, g1: Gen)
    requires s.If? && g0.insns <= g1.insns && |g1.insns| == |g0.insns| + LenElse(s.branches)
    requires PlacedElse(g1.insns, c, |g0.insns|, |g1.insns|, s.branches)
    requires g1.off == 0 && g1.peak == Max(g0.peak, PeakElse(c, s.branches))
    ensures GainedS(c, s, g0, g1)
  {
    hide PlacedElse, LenElse, PeakElse;
  }

  /** INCSP, the body and the final RET, with the temporary area patched in. */
  lemma FuncGained(c: Ctx, g0: Gen, g1: Gen, code: seq<Insn>)
    requires DeclsOk(c.f) && ArgsSize(c.f) <= c.frame && g0.peak == 0
    requires GainedAll(c, c.f.body, Emitted(g0, IncSp(c.frame - ArgsSize(c.f), 0)), g1) && |g0.insns| < |g1.insns|
    requires code == g1.insns[|g0.insns| := IncSp(c.frame - ArgsSize(c.f), g1.peak)] + [RetI(c.frame + 16)]
    ensures PlacedF(code, c, |g0.insns|) && |code| == |g0.insns| + LenF(c.f) && g0.insns <= code
  {
    hide GainedAll, PlacedAll, LenAll, PeakAll, ArgsSize, DeclsOk;
    var g := Emitted(g0, IncSp(c.frame - ArgsSize(c.f), 0));
    GainedAllParts(c, c.f.body, g, g1);
    PlacedAllLocal(g1.insns, code, c, |g.insns|, c.f.body);
    assert g.insns <= g1.insns;
  }
}
