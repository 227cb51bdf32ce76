/** Calls: what PUSHR, the pushed arguments, CALL, INCSP and the return do to the caller's state. */
module SimCalls {
  import opened Options
  import opened Bytes
  import opened Words
  import opened Ast
  import opened Layout
  import opened Insn
  import opened Machine
  import opened Codegen
  import opened Source
  import opened SimBase
  import opened SimSteps
  import opened SimGlue
  import opened Shapes

  /** Like Keep, while the stack grows by what is being pushed for a call. */
  ghost predicate Grow(frame: nat, l: Local, l': Local, t: nat) {
    && l'.bp == l.bp && l.sp <= l'.sp <= |l'.stack| && |l'.stack| == |l.stack|
    && l.temps != [] && l'.temps != [] && l'.temps[1..] == l.temps[1..] && |l'.temps[0]| == |l.temps[0]|
    && t <= |l.temps[0]| && l'.temps[0][..t] == l.temps[0][..t]
    && l.bp + frame <= l.sp <= |l.stack|
    && l'.stack[..l.bp] == l.stack[..l.bp]
    && l'.stack[l.bp + frame..l.sp] == l.stack[l.bp + frame..l.sp]
  }

  lemma KeepGrows(frame: nat, l: Local, l': Local, t: nat)
    requires Keep(frame, l, l', t)
    ensures Grow(frame, l, l', t)
  {
  }

  lemma SliceWithin(m: Mem, a: nat, b: nat, c: nat)
    requires a <= b <= c <= |m|
    ensures m[a..b] == m[a..c][..b - a]
  {
  }

  lemma GrowTrans(frame: nat, l: Local, l1: Local, l2: Local, t: nat, t1: nat)
    requires Grow(frame, l, l1, t) && Grow(frame, l1, l2, t1) && t <= t1
    ensures Grow(frame, l, l2, t)
  {
    SliceWithin(l2.temps[0], 0, t, t1);
    SliceWithin(l1.temps[0], 0, t, t1);
    SliceWithin(l2.stack, l.bp + frame, l.sp, l1.sp);
    SliceWithin(l1.stack, l.bp + frame, l.sp, l1.sp);
  }

  lemma GrowFacts(frame: nat, l: Local, l': Local, t: nat)
    requires Grow(frame, l, l', t)
    ensures l'.bp == l.bp && l.sp <= l'.sp <= |l'.stack| && |l'.stack| == |l.stack|
    ensures l.temps != [] && l'.temps != [] && |l'.temps[0]| == |l.temps[0]| && t <= |l.temps[0]|
  {
  }

  /** A state in which nothing but the bytes outside the frame differs represents the same source state. */
  lemma MatchKept(c: Ctx, l: Local, l': Local, s: St, s': St)
    requires Wf(c) && Match(c, l, s) && Framed(c, l')
    requires s'.vars == s.vars && l'.noint == s'.noint && l'.passed == s'.passed
    requires l'.bp == l.bp && |l'.stack| == |l.stack|
    requires l'.stack[l.bp..l.bp + c.frame] == l.stack[l.bp..l.bp + c.frame]
    ensures Match(c, l', s')
  {
    hide Wf, Holds;
    forall x | x in s'.vars ensures Holds(c, l', x, s'.vars[x]) {
      assert Holds(c, l, x, s.vars[x]);
      HoldsKept(c, l, l', x, s.vars[x]);
    }
  }

  lemma HoldsKept(c: Ctx, l: Local, l': Local, x: nat, v: int)
    requires Wf(c) && Holds(c, l, x, v)
    requires l'.bp == l.bp && |l'.stack| == |l.stack| && l.bp + c.frame <= |l.stack|
    requires l'.stack[l.bp..l.bp + c.frame] == l.stack[l.bp..l.bp + c.frame]
    ensures Holds(c, l', x, v)
  {
    FrameLayGood(c.f);
    hide FrameLay, Scalar;
    ReadAgree(l.stack, l'.stack, l.bp, l.bp + c.frame, l.bp + c.slots[x].off, c.slots[x].size);
  }

  // ---------- PUSHR ----------

  /** A call is being prepared: the return state sits at `at`, the stack height above it in a temporary. */
  ghost predicate Saved(l: Local, at: nat, retip: nat, bp: nat, ssp: Opd) {
    && at + 16 <= |l.stack| && Read(l.stack, at, 8) == retip && Read(l.stack, at + 8, 8) == bp
    && InBounds(l, ssp) && Get(l, ssp) == at + 16
  }

  lemma PushRStack(stack: Mem, sp: nat, a: nat, b: nat)
    requires sp + 16 <= |stack| && a < Pow256(8) && b < Pow256(8)
    ensures var s := Write(Write(stack, sp, 8, a), sp + 8, 8, b);
      && Read(s, sp, 8) == a && Read(s, sp + 8, 8) == b && s[..sp] == stack[..sp]
  {
    var s1 := Write(stack, sp, 8, a);
    ReadBack(stack, sp, 8, a);
    ReadBack(s1, sp + 8, 8, b);
    ReadElsewhere(s1, sp + 8, 8, b, sp, 8);
  }

  ghost function AfterPushR(l: Local, t: nat, q: nat): (l1: Local)
    requires l.sp + 16 <= |l.stack| && l.temps != [] && AllocEnd(t, 8) <= |l.temps[0]|
  {
    l.(stack := Write(Write(l.stack, l.sp, 8, q), l.sp + 8, 8, l.bp), sp := l.sp + 16,
       temps := [Write(l.temps[0], AlignUp(t, 8), 8, l.sp + 16)] + l.temps[1..], ip := l.ip + 1)
  }

  lemma PushRStep(m: Image, l: Local, t: nat, q: nat)
    requires At(m.code, l.ip, PushR(q, TempAt(t, U64))) && l.sp % 8 == 0 && l.sp + 16 <= |l.stack|
    requires l.temps != [] && AllocEnd(t, 8) <= |l.temps[0]|
    ensures Machine.Step(m.code, l, m.fill) == Next(AfterPushR(l, t, q))
  {
    hide Write;
  }

  lemma PushRSaved(l: Local, t: nat, q: nat)
    requires l.sp + 16 <= |l.stack| < Pow256(8) && l.temps != [] && AllocEnd(t, 8) <= |l.temps[0]|
    requires q < Pow256(8) && l.bp <= l.sp
    ensures var l1 := AfterPushR(l, t, q);
      && Saved(l1, l.sp, q, l.bp, TempAt(t, U64))
      && l1.stack[..l.sp] == l.stack[..l.sp] && l1.temps[0][..t] == l.temps[0][..t]
  {
    hide Write, Read, Pow256, AlignUp;
    PushRStack(l.stack, l.sp, q, l.bp);
    PushRTemp(l.temps[0], t, l.sp + 16);
  }

  lemma PushRTemp(temp: Mem, t: nat, v: nat)
    requires AllocEnd(t, 8) <= |temp| && v < Pow256(8)
    ensures AlignUp(t, 8) + 8 <= |temp|
    ensures var m := Write(temp, AlignUp(t, 8), 8, v);
      Read(m, AlignUp(t, 8), 8) == v && m[..t] == temp[..t]
  {
    ReadBack(temp, AlignUp(t, 8), 8, v);
    WriteFrame(temp, AlignUp(t, 8), 8, v, 0, t);
    hide Write, Read;
    var m := Write(temp, AlignUp(t, 8), 8, v);
    assert m[..t] == m[0..t] && temp[..t] == temp[0..t];
  }

  lemma PushRSim(m: Image, c: Ctx, l: Local, s: St, t: nat, q: nat) returns (l1: Local)
    requires Wf(c) && Match(c, l, s) && AllocEnd(t, 8) <= |l.temps[0]|
    requires At(m.code, l.ip, PushR(q, TempAt(t, U64))) && l.sp + 16 <= |l.stack| < Pow256(8) && q < Pow256(8)
    ensures Machine.Step(m.code, l, m.fill) == Next(l1) && l1.ip == l.ip + 1 && l1.sp == l.sp + 16
    ensures Match(c, l1, s) && Grow(c.frame, l, l1, t) && Saved(l1, l.sp, q, l.bp, TempAt(t, U64))
  {
    hide Machine.Step, Wf, Holds, Write, Saved;
    l1 := AfterPushR(l, t, q);
    PushRStep(m, l, t, q);
    PushRSaved(l, t, q);
    Prefix(l1.stack, l.stack, l.sp, l.bp, l.bp + c.frame);
    MatchKept(c, l, l1, s, s);
  }

  lemma Prefix(a: Mem, b: Mem, n: nat, lo: nat, hi: nat)
    requires lo <= hi <= n <= |a| && n <= |b| && a[..n] == b[..n]
    ensures a[lo..hi] == b[lo..hi] && a[..lo] == b[..lo] && a[hi..n] == b[hi..n]
  {
    assert a[lo..hi] == a[..n][lo..hi];
    assert b[lo..hi] == b[..n][lo..hi];
    assert a[..lo] == a[..n][..lo];
    assert b[..lo] == b[..n][..lo];
    assert a[hi..n] == a[..n][hi..n];
    assert b[hi..n] == b[..n][hi..n];
  }

  lemma PushROverflow(m: Image, l: Local, ssp: Opd, q: nat)
    requires At(m.code, l.ip, PushR(q, ssp)) && l.sp + 16 > |l.stack|
    ensures Machine.Step(m.code, l, m.fill) == Illegal
  {
  }

  // ---------- arguments ----------

  ghost predicate PushedWord(stack: Mem, off: nat, g: Func, x: nat, v: int) {
    && Scalar(g, x) && g.vars[x].ty.value.Holds(v) && off + 8 <= |stack|
    && Read(stack, off, g.vars[x].ty.value.Size()) == g.vars[x].ty.value.Pat(v)
  }

  /** One word per value from `base` on, in the types of g's parameters from the i-th on. */
  ghost predicate Pushed(stack: Mem, base: nat, vals: seq<int>, g: Func, i: nat) {
    forall j :: 0 <= j < |vals| ==> PushedWord(stack, base + 8 * j, g, i + j, vals[j])
  }

  lemma PushedCons(stack: Mem, base: nat, v: int, vs: seq<int>, g: Func, i: nat)
    requires PushedWord(stack, base, g, i, v) && Pushed(stack, base + 8, vs, g, i + 1)
    ensures Pushed(stack, base, [v] + vs, g, i)
  {
    forall j | 0 <= j < |[v] + vs| ensures PushedWord(stack, base + 8 * j, g, i + j, ([v] + vs)[j]) {
      if j > 0 {
        assert PushedWord(stack, base + 8 + 8 * (j - 1), g, i + 1 + (j - 1), vs[j - 1]);
      }
    }
  }

  lemma AlignedPush(sp: nat, n: nat)
    requires sp % 8 == 0 && 1 <= n <= 8
    ensures Aligned8(sp + n) == sp + 8
  {
  }

  lemma NoRoom(sp: nat, len: nat, n: nat)
    requires sp % 8 == 0 && len % 8 == 0 && 1 <= n <= 8
    ensures sp + n <= len <==> sp + 8 <= len
  {
  }

  lemma PushStep(m: Image, l: Local, src: Opd, ty: Ty)
    requires At(m.code, l.ip, Push(src)) && InBounds(l, src) && src.size == ty.Size()
    requires l.sp % 8 == 0 && |l.stack| % 8 == 0
    ensures Machine.Step(m.code, l, m.fill) ==
      if l.sp + 8 > |l.stack| then Illegal
      else Next(l.(stack := Write(l.stack, l.sp, ty.Size(), Get(l, src)), sp := l.sp + 8, ip := l.ip + 1))
  {
    AlignedPush(l.sp, src.size);
    NoRoom(l.sp, |l.stack|, src.size);
    hide Write, Get, InBounds, Aligned8;
  }

  /** Pushing one evaluated argument. */
  lemma PushSim(m: Image, c: Ctx, l: Local, s: St, src: Opd, g: Func, i: nat, v: int, t: nat) returns (l1: Local)
    requires Wf(c) && Match(c, l, s) && t <= |l.temps[0]| && l.sp + 8 <= |l.stack| && |l.stack| % 8 == 0
    requires Scalar(g, i) && g.vars[i].ty.value.Holds(v)
    requires src.size == g.vars[i].ty.value.Size() && InBounds(l, src) && Get(l, src) == g.vars[i].ty.value.Pat(v)
    requires At(m.code, l.ip, Push(src))
    ensures Machine.Step(m.code, l, m.fill) == Next(l1) && l1.ip == l.ip + 1 && l1.sp == l.sp + 8
    ensures Match(c, l1, s) && Grow(c.frame, l, l1, t) && PushedWord(l1.stack, l.sp, g, i, v)
  {
    hide *;
    FramedOf(c, l, s);
    PushWrites(l.stack, l.sp, g, i, v);
    var ty := g.vars[i].ty.value;
    PushStep(m, l, src, ty);
    l1 := l.(stack := Write(l.stack, l.sp, ty.Size(), ty.Pat(v)), sp := l.sp + 8, ip := l.ip + 1);
    Prefix(l1.stack, l.stack, l.sp, l.bp, l.bp + c.frame);
    PushFrames(c, l, s, l1, t);
    MatchKept(c, l, l1, s, s);
  }

  lemma PushWrites(stack: Mem, sp: nat, g: Func, i: nat, v: int)
    requires Scalar(g, i) && g.vars[i].ty.value.Holds(v) && sp + 8 <= |stack|
    ensures i < |g.vars| && g.vars[i].ty.Some? && g.vars[i].ty.value.Size() <= 8
    ensures var ty := g.vars[i].ty.value;
      var s1 := Write(stack, sp, ty.Size(), ty.Pat(v));
         |s1| == |stack| && s1[..sp] == stack[..sp] && PushedWord(s1, sp, g, i, v)
  {
    var ty := g.vars[i].ty.value;
    ReadBack(stack, sp, ty.Size(), ty.Pat(v));
    WriteFrame(stack, sp, ty.Size(), ty.Pat(v), 0, sp);
    hide Write, Read;
    var s1 := Write(stack, sp, ty.Size(), ty.Pat(v));
    assert s1[..sp] == s1[0..sp] && stack[..sp] == stack[0..sp];
  }

  lemma PushFrames(c: Ctx, l: Local, s: St, l1: Local, t: nat)
    requires Match(c, l, s) && t <= |l.temps[0]|
    requires l1 == l.(stack := l1.stack, sp := l.sp + 8, ip := l.ip + 1) && |l1.stack| == |l.stack|
    requires l.sp + 8 <= |l.stack| && l1.stack[..l.bp] == l.stack[..l.bp]
    requires l.bp + c.frame <= l.sp && l1.stack[l.bp + c.frame..l.sp] == l.stack[l.bp + c.frame..l.sp]
    ensures Framed(c, l1) && Grow(c.frame, l, l1, t) && l1.noint == s.noint && l1.passed == s.passed
  {
    hide Holds;
  }

  ghost predicate ArgsPre(m: Image, c: Ctx, args: Args, g: Func, i: nat, t: nat, l: Local, s: St) {
    && Ready(m, c, l, s)
    && PlacedArgs(m.code, c, l.ip, t, args) && ArgsOk(c.p, c.f, args, g, i)
    && PeakArgs(c, args, t) <= |l.temps[0]|
  }

  ghost predicate ArgsPost(m: Image, c: Ctx, args: Args, g: Func, i: nat, t: nat, l: Local, s: St, fuel: nat,
                           k: nat, l': Local) {
    var out := EvalArgs(m.w, c.f, args, s, l.sp, fuel);
    if out.Ok? then
      && Runs(m, l, k, l') && Match(c, l', out.value.0) && Grow(c.frame, l, l', t)
      && l'.ip == l.ip + LenArgs(args) && l'.sp == out.value.2 == l.sp + 8 * |out.value.1|
      && i + |out.value.1| == g.params && Pushed(l'.stack, l.sp, out.value.1, g, i)
    else SimFail(m, l, k, Kind(out), fuel)
  }

  lemma ArgsParts(m: Image, c: Ctx, args: Args, g: Func, i: nat, t: nat, l: Local, s: St)
    requires ArgsPre(m, c, args, g, i, t, l, s)
    ensures Ready(m, c, l, s) && PlacedArgs(m.code, c, l.ip, t, args) && ArgsOk(c.p, c.f, args, g, i)
    ensures l.temps != [] && PeakArgs(c, args, t) <= |l.temps[0]| && t <= PeakArgs(c, args, t)
    ensures Match(c, l, s) && Wf(c) && |l.stack| == m.w.cap
  {
    hide PlacedArgs, ArgsOk, Compiled, Within, Match;
    ReadyTemps(m, c, l, s);
  }

  lemma ArgTypes(c: Ctx, args: Args, g: Func, i: nat)
    requires args.Arg? && ArgsOk(c.p, c.f, args, g, i)
    ensures i < g.params && Scalar(g, i) && TypeOf(c.p, c.f, args.head) == TInt(g.vars[i].ty.value)
    ensures ArgsOk(c.p, c.f, args.tail, g, i + 1)
  {
  }

  lemma ArgTemps(c: Ctx, args: Args, t: nat)
    requires args.Arg?
    ensures var t1 := TempEnd(c, args.head, t);
      && t <= t1 && Peak(c, args.head, t) <= PeakArgs(c, args, t) && PeakArgs(c, args.tail, t1) <= PeakArgs(c, args, t)
      && TempEndArgs(c, args, t) == TempEndArgs(c, args.tail, t1) && t1 <= Peak(c, args.head, t)
      && LenArgs(args) == Len(args.head) + 1 + LenArgs(args.tail)
  {
  }

  lemma ArgEval(w: World, f: Func, args: Args, s: St, sp: nat, fuel: nat)
    requires args.Arg?
    ensures var o, r := EvalArgs(w, f, args, s, sp, fuel), Eval(w, f, args.head, s, sp, fuel);
      if !r.Ok? then Kind(o) == Kind(r)
      else
        var v := Value(f, r.value.0, r.value.1);
        && (v.Ok? || v.Undef?)
        && (v.Undef? ==> o.Undef?)
        && (v.Ok? && sp + 8 > w.cap ==> o.Overflow?)
        && (v.Ok? && sp + 8 <= w.cap ==>
              var q := EvalArgs(w, f, args.tail, r.value.0, sp + 8, fuel);
              if !q.Ok? then Kind(o) == Kind(q)
              else o == Ok((q.value.0, [v.value.0] + q.value.1, q.value.2)))
  {
    hide Eval, Value;
    ValueOutcome(f, args.head, w, s, sp, fuel);
  }

  lemma ValueOutcome(f: Func, e: Expr, w: World, s: St, sp: nat, fuel: nat)
    ensures var r := Eval(w, f, e, s, sp, fuel);
      r.Ok? ==> Value(f, r.value.0, r.value.1).Ok? || Value(f, r.value.0, r.value.1).Undef?
  {
    hide Eval;
  }

  lemma ArgsHere(m: Image, c: Ctx, g: Func, i: nat, t: nat, l: Local, s: St, fuel: nat)
    requires ArgsPre(m, c, NoArgs, g, i, t, l, s)
    ensures ArgsPost(m, c, NoArgs, g, i, t, l, s, fuel, 0, l)
  {
    ArgsParts(m, c, NoArgs, g, i, t, l, s);
    hide Match, Wf, Pushed, ArgsPre, Ready;
    PushedNothing(l.stack, l.sp, g, i);
    assert m.w.cap == |l.stack|;
    FramedOf(c, l, s);
    assert Runs(m, l, 0, l);
  }

  lemma PushedNothing(stack: Mem, base: nat, g: Func, i: nat)
    ensures Pushed(stack, base, [], g, i)
  {
  }

  lemma FramedOf(c: Ctx, l: Local, s: St)
    requires Match(c, l, s)
    ensures l.sp % 8 == 0 && l.bp % 8 == 0 && 16 <= l.bp && l.bp + c.frame <= l.sp <= |l.stack| && l.temps != []
    ensures l.noint == s.noint && l.passed == s.passed
  {
  }

  lemma ArgsUndef(m: Image, c: Ctx, args: Args, g: Func, i: nat, t: nat, l: Local, s: St, fuel: nat, k: nat, l': Local)
    requires EvalArgs(m.w, c.f, args, s, l.sp, fuel).Undef?
    ensures ArgsPost(m, c, args, g, i, t, l, s, fuel, k, l')
  {
    hide EvalArgs;
  }

  lemma ArgsFail(m: Image, c: Ctx, args: Args, g: Func, i: nat, t: nat, l: Local, s: St, fuel: nat, k: nat, l': Local)
    requires args.Arg? && Post(m, c, args.head, t, l, s, fuel, k, l')
    requires !Eval(m.w, c.f, args.head, s, l.sp, fuel).Ok?
    requires Kind(EvalArgs(m.w, c.f, args, s, l.sp, fuel)) == Kind(Eval(m.w, c.f, args.head, s, l.sp, fuel))
    ensures ArgsPost(m, c, args, g, i, t, l, s, fuel, k, l')
  {
    hide Eval, EvalArgs, SimFail;
  }

  lemma StopsHere(m: Image, l: Local, k: nat, l1: Local, fuel: nat)
    requires Runs(m, l, k, l1) && Machine.Step(m.code, l1, m.fill) == Illegal
    ensures SimFail(m, l, k + 1, StackOverflow, fuel)
  {
    hide Machine.Step;
    Chain(m, l, k, l1, 1);
  }

  lemma ArgsOverflow(m: Image, c: Ctx, args: Args, g: Func, i: nat, t: nat, l: Local, s: St, fuel: nat, k: nat, l': Local)
    requires EvalArgs(m.w, c.f, args, s, l.sp, fuel).Overflow? && SimFail(m, l, k, StackOverflow, fuel)
    ensures ArgsPost(m, c, args, g, i, t, l, s, fuel, k, l')
  {
    hide EvalArgs, SimFail;
  }

  /** The rest of the arguments after the first one has been pushed. */
  lemma ArgsDone(m: Image, c: Ctx, args: Args, g: Func, i: nat, t: nat, l: Local, s: St, fuel: nat,
                 k: nat, l1: Local, s1: St, t1: nat, l2: Local, k2: nat, l3: Local, v: int)
    requires args.Arg? && Mid(m, c, l, k, l1, s1, t) && l1.ip == l.ip + Len(args.head) && l1.sp == l.sp
    requires Machine.Step(m.code, l1, m.fill) == Next(l2) && l2.ip == l1.ip + 1 && l2.sp == l1.sp + 8
    requires Grow(c.frame, l1, l2, t) && PushedWord(l2.stack, l.sp, g, i, v) && t <= t1
    requires ArgsPost(m, c, args.tail, g, i + 1, t1, l2, s1, fuel, k2, l3)
    requires var o, q := EvalArgs(m.w, c.f, args, s, l.sp, fuel), EvalArgs(m.w, c.f, args.tail, s1, l2.sp, fuel);
      if !q.Ok? then Kind(o) == Kind(q) else o == Ok((q.value.0, [v] + q.value.1, q.value.2))
    requires LenArgs(args) == Len(args.head) + 1 + LenArgs(args.tail)
    ensures ArgsPost(m, c, args, g, i, t, l, s, fuel, k + 1 + k2, l3)
  {
    hide *;
    MidFacts(m, c, l, k, l1, s1, t);
    Extend(m, l, k, l1, l2);
    var q := EvalArgs(m.w, c.f, args.tail, s1, l2.sp, fuel);
    ArgsOpen(m, c, args.tail, g, i + 1, t1, l2, s1, fuel, k2, l3);
    if q.Ok? {
      var vs := q.value.1;
      ChainRuns(m, l, k + 1, l2, k2, l3);
      KeepGrows(c.frame, l, l1, t);
      GrowTrans(c.frame, l, l1, l2, t, t);
      GrowTrans(c.frame, l, l2, l3, t, t1);
      GrowFacts(c.frame, l1, l2, t);
      GrowKeepsWord(c, l1, l2, l3, t, t1, g, i, v);
      PushedCons(l3.stack, l.sp, v, vs, g, i);
      ArgsMk(m, c, args, g, i, t, l, s, fuel, k + 1 + k2, l3, q.value.0, [v] + vs);
    } else {
      ChainFail(m, l, k + 1, l2, k2, Kind(q), fuel);
      SameKind(EvalArgs(m.w, c.f, args, s, l.sp, fuel), q);
      ArgsMkFail(m, c, args, g, i, t, l, s, fuel, k + 1 + k2, l3);
    }
  }

  lemma GrowKeepsWord(c: Ctx, l1: Local, l2: Local, l3: Local, t: nat, t1: nat, g: Func, i: nat, v: int)
    requires Grow(c.frame, l1, l2, t) && l2.sp == l1.sp + 8 && PushedWord(l2.stack, l1.sp, g, i, v)
    requires Grow(c.frame, l2, l3, t1)
    ensures PushedWord(l3.stack, l1.sp, g, i, v)
  {
    ReadAgree(l2.stack, l3.stack, l1.bp + c.frame, l2.sp, l1.sp, g.vars[i].ty.value.Size());
  }

  lemma ArgsOpen(m: Image, c: Ctx, args: Args, g: Func, i: nat, t: nat, l: Local, s: St, fuel: nat, k: nat, l': Local)
    requires ArgsPost(m, c, args, g, i, t, l, s, fuel, k, l')
    ensures var out := EvalArgs(m.w, c.f, args, s, l.sp, fuel);
    if out.Ok? then
      && Runs(m, l, k, l') && Match(c, l', out.value.0) && Grow(c.frame, l, l', t)
      && l'.ip == l.ip + LenArgs(args) && l'.sp == out.value.2 == l.sp + 8 * |out.value.1|
      && i + |out.value.1| == g.params && Pushed(l'.stack, l.sp, out.value.1, g, i)
    else SimFail(m, l, k, Kind(out), fuel)
  {
    hide EvalArgs, SimFail, Runs, Match, Grow, Pushed;
  }

  lemma ArgsMk(m: Image, c: Ctx, args: Args, g: Func, i: nat, t: nat, l: Local, s: St, fuel: nat, k: nat, l': Local,
               s': St, vals: seq<int>)
    requires EvalArgs(m.w, c.f, args, s, l.sp, fuel) == Ok((s', vals, l'.sp))
    requires Runs(m, l, k, l') && Match(c, l', s') && Grow(c.frame, l, l', t)
    requires l'.ip == l.ip + LenArgs(args) && l'.sp == l.sp + 8 * |vals| && i + |vals| == g.params
    requires Pushed(l'.stack, l.sp, vals, g, i)
    ensures ArgsPost(m, c, args, g, i, t, l, s, fuel, k, l')
  {
    hide EvalArgs, Runs, Match, Grow, Pushed;
  }

  lemma ArgsMkFail(m: Image, c: Ctx, args: Args, g: Func, i: nat, t: nat, l: Local, s: St, fuel: nat, k: nat, l': Local)
    requires !EvalArgs(m.w, c.f, args, s, l.sp, fuel).Ok?
    requires SimFail(m, l, k, Kind(EvalArgs(m.w, c.f, args, s, l.sp, fuel)), fuel)
    ensures ArgsPost(m, c, args, g, i, t, l, s, fuel, k, l')
  {
    hide EvalArgs, SimFail;
  }

  lemma SameKind<T, U>(o: Outcome<T>, q: Outcome<U>)
    requires Kind(o) == Kind(q)
    ensures o.Ok? <==> q.Ok?
    ensures o.Undef? <==> q.Undef?
  {
  }

  lemma ChainRuns(m: Image, l: Local, k: nat, l1: Local, k2: nat, l2: Local)
    requires Runs(m, l, k, l1) && Runs(m, l1, k2, l2)
    ensures Runs(m, l, k + k2, l2)
  {
    hide Run;
    Chain(m, l, k, l1, k2);
  }
}
