/** The relation between source states and machine states on which semantic preservation rests. */
module SimBase {
  import opened Bytes
  import opened Words
  import opened Ast
  import opened Layout
  import opened Insn
  import opened Machine
  import opened Codegen
  import opened Source

  /** A linked program and the environment it runs in. */
  datatype Image = Image(code: seq<Insn>, w: World, locs: seq<nat>, fill: Fill)

  function LinkedFns(locs: seq<nat>): seq<Opd> {
    seq(|locs|, i requires 0 <= i < |locs| => Imm(false, locs[i], 8))
  }

  function CtxOf(p: Program, f: Func, fns: seq<Opd>): Ctx
    requires DeclsOk(f)
  {
    Ctx(p, f, FrameLay(f).slots, FrameLay(f).frame, fns)
  }

  /** Every function of the program stands in the code at its location, references resolved. */
  ghost predicate Compiled(m: Image) {
    && ProgramOk(m.w.prog) && !m.w.eager
    && |m.locs| == |m.w.locals| == |m.w.prog|
    && |m.code| < Pow256(8) && m.w.cap < Pow256(8) && m.w.cap % 8 == 0
    && forall i :: 0 <= i < |m.w.prog| ==> FuncPlaced(m, i)
  }

  ghost predicate FuncPlaced(m: Image, i: nat)
    requires |m.locs| == |m.w.locals| == |m.w.prog| && i < |m.w.prog|
  {
    var f := m.w.prog[i];
    && FuncOk(m.w.prog, f)
    && m.locs[i] < |m.code|
    && m.w.locals[i] == FrameLay(f).frame - ArgsSize(f)
    && PlacedF(m.code, CtxOf(m.w.prog, f, LinkedFns(m.locs)), m.locs[i])
  }

  /** The context of one of the image's functions. */
  ghost predicate Within(m: Image, c: Ctx) {
    c.p == m.w.prog && c.fns == LinkedFns(m.locs) && Wf(c)
  }

  ghost predicate Wf(c: Ctx) {
    && DeclsOk(c.f)
    && c.slots == FrameLay(c.f).slots
    && c.frame == FrameLay(c.f).frame
  }

  /** The frame of the function is in place below the stack pointer. */
  ghost predicate Framed(c: Ctx, l: Local) {
    && l.sp % 8 == 0 && l.bp % 8 == 0
    && 16 <= l.bp && l.bp + c.frame <= l.sp <= |l.stack|
    && l.temps != []
  }

  ghost predicate Holds(c: Ctx, l: Local, x: nat, v: int) {
    && Scalar(c.f, x) && x in c.slots
    && c.f.vars[x].ty.value.Holds(v)
    && l.bp + c.slots[x].off + c.slots[x].size <= |l.stack|
    && c.slots[x].size == c.f.vars[x].ty.value.Size()
    && Read(l.stack, l.bp + c.slots[x].off, c.slots[x].size) == c.f.vars[x].ty.value.Pat(v)
  }

  /** The machine state represents the source state: every initialised variable's slot holds its value. */
  ghost predicate Match(c: Ctx, l: Local, s: St)
  {
    && Framed(c, l)
    && l.noint == s.noint && l.passed == s.passed
    && forall x :: x in s.vars ==> Holds(c, l, x, s.vars[x])
  }

  /** What evaluation may not touch: the temporaries below t, the frames of callers, and everything pushed
      on the stack above the own frame. */
  ghost predicate Keep(frame: nat, l: Local, l': Local, t: nat) {
    && l'.bp == l.bp && l'.sp == l.sp && |l'.stack| == |l.stack|
    && l.temps != [] && l'.temps != [] && l'.temps[1..] == l.temps[1..] && |l'.temps[0]| == |l.temps[0]|
    && t <= |l.temps[0]| && l'.temps[0][..t] == l.temps[0][..t]
    && l.bp + frame <= l.sp <= |l.stack|
    && l'.stack[..l.bp] == l.stack[..l.bp]
    && l'.stack[l.bp + frame..l.sp] == l.stack[l.bp + frame..l.sp]
  }

  lemma KeepTrans(frame: nat, l: Local, l1: Local, l2: Local, t: nat, t1: nat)
    requires Keep(frame, l, l1, t) && Keep(frame, l1, l2, t1) && t <= t1
    ensures Keep(frame, l, l2, t)
  {
    assert l2.temps[0][..t] == l2.temps[0][..t1][..t];
    assert l1.temps[0][..t] == l1.temps[0][..t1][..t];
  }

  /** The operand `o` stands for the evaluated result `r` of type `et`; a temporary lies in [t, t'). */
  ghost predicate Denotes(c: Ctx, l: Local, r: Res, o: Opd, et: ETy, t: nat, t': nat) {
    match r
    case RConst(v, ty) => et == TInt(ty) && !ty.Signed() && ty.Holds(v) && o == Imm(false, v, ty.Size())
    case RVar(x) =>
      Scalar(c.f, x) && x in c.slots && et == TInt(c.f.vars[x].ty.value) && o == VarOpd(c, x)
    case RVal(v, ty) =>
      && et == TInt(ty) && ty.Holds(v)
      && o.Temp? && o.signd == ty.Signed() && o.size == ty.Size()
      && t <= o.off && o.off + o.size <= t'
      && InBounds(l, o) && Get(l, o) == ty.Pat(v)
    case RVoid => et.TVoid?
  }

  datatype Failure = NoFailure | Undefined | OutOfFuel | StackOverflow

  function Kind<T>(out: Outcome<T>): Failure {
    match out
    case Ok(_) => NoFailure
    case Undef(_) => Undefined
    case Timeout => OutOfFuel
    case Overflow => StackOverflow
  }

  /** A failing evaluation: the machine rejects an overflowing push, and keeps running for at least as many
      instructions as the fuel that ran out.  Undefined behaviour promises nothing. */
  ghost predicate SimFail(m: Image, l: Local, k: nat, kind: Failure, fuel: nat) {
    match kind
    case NoFailure => false
    case StackOverflow => Run(m.code, l, k, m.fill) == Illegal
    case OutOfFuel => Run(m.code, l, k, m.fill).Next? && k >= fuel
    case Undefined => true
  }

  ghost predicate Runs(m: Image, l: Local, k: nat, l': Local) {
    Run(m.code, l, k, m.fill) == Next(l')
  }

  /** k instructions lead from l to l', which represents s', and leave everything else alone. */
  ghost predicate Mid(m: Image, c: Ctx, l: Local, k: nat, l': Local, s': St, t: nat) {
    Runs(m, l, k, l') && Match(c, l', s') && Keep(c.frame, l, l', t)
  }

  lemma SlotFacts(c: Ctx, x: nat)
    requires Wf(c)
    requires Scalar(c.f, x) && Declared(c.f, x)
    ensures x in c.slots && c.slots[x].size == c.f.vars[x].ty.value.Size()
    ensures c.slots[x].off + c.slots[x].size <= c.frame
    ensures forall y :: y in c.slots && y != x ==> Apart(c.slots[x], c.slots[y])
  {
    FrameLayGood(c.f);
  }

  /** Reading a variable's slot gives the pattern of its value. */
  lemma ReadSlot(c: Ctx, l: Local, s: St, x: nat)
    requires Match(c, l, s) && Scalar(c.f, x) && x in c.slots && Value(c.f, s, RVar(x)).Ok?
    ensures var (v, ty) := Value(c.f, s, RVar(x)).value; var o := VarOpd(c, x);
      && TInt(c.f.vars[x].ty.value) == TInt(ty) && ty.Holds(v) && o.size == ty.Size() && o.signd == ty.Signed()
      && InBounds(l, o) && Get(l, o) == ty.Pat(v)
  {
    hide Framed, Scalar;
    assert Holds(c, l, x, s.vars[x]);
  }

  /** Reading a result operand gives the pattern of the value the source reads. */
  lemma ReadOpd(c: Ctx, l: Local, s: St, r: Res, o: Opd, et: ETy, t: nat, t': nat)
    requires Wf(c) && Match(c, l, s)
    requires Denotes(c, l, r, o, et, t, t') && Value(c.f, s, r).Ok?
    ensures var (v, ty) := Value(c.f, s, r).value;
      && et == TInt(ty) && ty.Holds(v) && o.size == ty.Size() && o.signd == ty.Signed()
      && InBounds(l, o) && Get(l, o) == ty.Pat(v)
  {
    hide Wf, Match, Scalar;
    if r.RVar? {
      ReadSlot(c, l, s, r.x);
    }
  }

  /** Evaluating something else with the allocator above t' does not disturb an operand. */
  lemma DenotesKept(c: Ctx, l: Local, l': Local, r: Res, o: Opd, et: ETy, t: nat, t': nat)
    requires Denotes(c, l, r, o, et, t, t') && Keep(c.frame, l, l', t')
    ensures Denotes(c, l', r, o, et, t, t')
  {
    if r.RVal? {
      assert l.temps[0][0..t'] == l'.temps[0][0..t'];
      ReadAgree(l.temps[0], l'.temps[0], 0, t', o.off, o.size);
    }
  }

  /** Storing a value in a fresh temporary. */
  lemma PutTemp(c: Ctx, l: Local, s: St, t: nat, ty: Ty, v: int) returns (l': Local)
    requires Wf(c) && Match(c, l, s)
    requires ty.Holds(v) && AllocEnd(t, ty.Size()) <= |l.temps[0]|
    ensures Writable(l, TempAt(t, ty)) && l' == Advance(Set(l, TempAt(t, ty), ty.Pat(v)))
    ensures Match(c, l', s) && Keep(c.frame, l, l', t)
    ensures Denotes(c, l', RVal(v, ty), TempAt(t, ty), TInt(ty), t, AllocEnd(t, ty.Size()))
  {
    var o := TempAt(t, ty);
    l' := Advance(Set(l, o, ty.Pat(v)));
    ReadBack(l.temps[0], o.off, o.size, ty.Pat(v));
    WriteFrame(l.temps[0], o.off, o.size, ty.Pat(v), 0, t);
    assert l'.temps[0][..t] == l.temps[0][..t];
    assert l'.temps[1..] == l.temps[1..];
    hide Wf, Holds, Write, Read;
    forall x | x in s.vars ensures Holds(c, l', x, s.vars[x]) {
      SameStackHolds(c, l, l', x, s.vars[x]);
    }
  }

  lemma SameStackHolds(c: Ctx, l: Local, l': Local, x: nat, v: int)
    requires Holds(c, l, x, v) && l'.stack == l.stack && l'.bp == l.bp
    ensures Holds(c, l', x, v)
  {
    hide Scalar, Read;
  }

  /** The machine after a word is written into the slot of x. */
  ghost function Written(c: Ctx, l: Local, x: nat, p: nat): Local
    requires x in c.slots && l.bp + c.slots[x].off + c.slots[x].size <= |l.stack|
  {
    l.(stack := Write(l.stack, l.bp + c.slots[x].off, c.slots[x].size, p), ip := l.ip + 1)
  }

  lemma PutVarOther(c: Ctx, l: Local, x: nat, p: nat, y: nat, w: int)
    requires x in c.slots && y in c.slots && Apart(c.slots[x], c.slots[y]) && Holds(c, l, y, w)
    requires l.bp + c.slots[x].off + c.slots[x].size <= |l.stack|
    ensures Holds(c, Written(c, l, x, p), y, w)
  {
    ReadElsewhere(l.stack, l.bp + c.slots[x].off, c.slots[x].size, p, l.bp + c.slots[y].off, c.slots[y].size);
  }

  lemma PutVarSelf(c: Ctx, l: Local, x: nat, v: int)
    requires Scalar(c.f, x) && x in c.slots && c.slots[x].size == c.f.vars[x].ty.value.Size()
    requires l.bp + c.slots[x].off + c.slots[x].size <= |l.stack| && c.f.vars[x].ty.value.Holds(v)
    ensures Holds(c, Written(c, l, x, c.f.vars[x].ty.value.Pat(v)), x, v)
  {
    ReadBack(l.stack, l.bp + c.slots[x].off, c.slots[x].size, c.f.vars[x].ty.value.Pat(v));
  }

  lemma PutVarKeep(c: Ctx, l: Local, x: nat, p: nat, t: nat)
    requires x in c.slots && c.slots[x].off + c.slots[x].size <= c.frame
    requires Framed(c, l) && t <= |l.temps[0]|
    ensures Keep(c.frame, l, Written(c, l, x, p), t)
  {
    var at, n := l.bp + c.slots[x].off, c.slots[x].size;
    WriteFrame(l.stack, at, n, p, 0, l.bp);
    WriteFrame(l.stack, at, n, p, l.bp + c.frame, l.sp);
    var m := Write(l.stack, at, n, p);
    assert m[..l.bp] == m[0..l.bp] && l.stack[..l.bp] == l.stack[0..l.bp];
  }

  /** Storing a value in a variable changes that variable and no other. */
  lemma PutVar(c: Ctx, l: Local, s: St, x: nat, v: int, t: nat) returns (l': Local)
    requires Wf(c) && Match(c, l, s)
    requires Scalar(c.f, x) && Declared(c.f, x)
    requires c.f.vars[x].ty.value.Holds(v) && t <= |l.temps[0]|
    ensures Writable(l, VarOpd(c, x))
    ensures l' == Advance(Set(l, VarOpd(c, x), c.f.vars[x].ty.value.Pat(v)))
    ensures Match(c, l', s.(vars := s.vars[x := v])) && Keep(c.frame, l, l', t)
    ensures l'.temps == l.temps
  {
    SlotFacts(c, x);
    var p := c.f.vars[x].ty.value.Pat(v);
    l' := Written(c, l, x, p);
    PutVarKeep(c, l, x, p, t);
    PutVarSelf(c, l, x, v);
    hide Keep, Holds, Write, Wf, Read, Scalar;
    var vars' := s.vars[x := v];
    forall y | y in vars' ensures Holds(c, l', y, vars'[y]) {
      if y != x {
        assert Holds(c, l, y, s.vars[y]);
        HoldsSlot(c, l, y, s.vars[y]);
        PutVarOther(c, l, x, p, y, s.vars[y]);
      }
    }
  }

  lemma HoldsSlot(c: Ctx, l: Local, y: nat, w: int)
    requires Holds(c, l, y, w)
    ensures y in c.slots
  {
  }
}
