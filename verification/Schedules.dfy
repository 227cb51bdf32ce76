/** Whole runs: no schedule changes what a plain resumable function computes. */
module Schedules {
  import opened Options
  import opened Bytes
  import opened Words
  import opened Ast
  import opened Layout
  import opened Insn
  import opened Machine
  import opened Quaint
  import opened ActiveChain
  import opened Protocol
  import opened Guarantees
  import Codegen
  import Source
  import SimBase
  import SimCalls
  import SimStmts
  import Preservation
  import Contexts

  // ---------- schedule independence ----------

  /** The function run on its own from l0 never creates, waits for, resumes, inspects or reaps anything. */
  ghost predicate PlainFunction(code: seq<Insn>, fill: Fill, l0: Local) {
    forall k: nat :: Run(code, l0, k, fill) != External
  }

  /** The state is one the function reaches on its own, or the one its return leaves. */
  ghost predicate OnItsOwn(code: seq<Insn>, fill: Fill, l0: Local, v: Qvm, k: nat) {
    var n := Run(code, l0, k, fill);
    if v.atEnd then n.Finished? && n.size <= |n.l.stack| && v.local.stack == Write(n.l.stack, 0, n.size, n.val)
    else v.waiting == NotWaiting && n == Next(v.local)
  }

  lemma RunOne(code: seq<Insn>, fill: Fill, l0: Local, k: nat, l: Local)
    requires Run(code, l0, k, fill) == Next(l)
    ensures Run(code, l0, k + 1, fill) == Step(code, l, fill)
  {
    hide Step;
    RunAdd(code, l0, k, 1, fill);
    var n := Step(code, l, fill);
    if n.Next? {
      assert Run(code, n.l, 0, fill) == n;
    }
  }

  /** One instruction of the whole system is one or no instruction of the function on its own. */
  lemma OwnStep(code: seq<Insn>, s: Sys, ch: seq<nat>, env: Env, fill: Fill, s': Sys, h: nat, l0: Local, k: nat)
    returns (k': nat)
    requires Inv(code, s, ch) && Steps(code, fill, s, env, s') && PlainFunction(code, fill, l0)
    requires h in s.vms && h in s'.vms && OnItsOwn(code, fill, l0, s.vms[h], k)
    ensures OnItsOwn(code, fill, l0, s'.vms[h], k')
  {
    hide Inv, UseOk, EnvOk, Act, Check, Step, Run, Write, Nearest;
    var s1 := Act(code, s, env, fill).s;
    var ch1 := ActKeepsInv(code, s, ch, env, fill, s1);
    var j := CheckKeepsInv(code, s1, ch1, env);
    k' := OwnAct(code, s, ch, env, fill, s1, h, l0, k);
    if j > 0 && h == ch1[j] {
      if s1.vms[h].atEnd {
        EndedStays(code, s1, ch1, j, h);
      }
      SplitWaits(code, s1, ch1, j, s'.now);
    }
  }

  lemma SplitWaits(code: seq<Insn>, s: Sys, ch: seq<nat>, k: nat, now: nat)
    requires Inv(code, s, ch) && 0 < k < |ch| && ch[k] in s.vms && Nearest(s.vms, ch, 0, k, now)
    ensures s.vms[ch[k]].waiting != NotWaiting
  {
    hide Inv, ClearBelow;
  }

  lemma OwnAct(code: seq<Insn>, s: Sys, ch: seq<nat>, env: Env, fill: Fill, s1: Sys, h: nat, l0: Local, k: nat)
    returns (k': nat)
    requires Inv(code, s, ch) && EnvOk(s, env) && Act(code, s, env, fill) == Go(s1) && PlainFunction(code, fill, l0)
    requires h in s.vms && h in s1.vms && OnItsOwn(code, fill, l0, s.vms[h], k)
    ensures OnItsOwn(code, fill, l0, s1.vms[h], k')
  {
    CurFacts(code, s, ch);
    k' := k;
    if h == s.cur {
      RunOne(code, fill, l0, k, s.vms[h].local);
      k' := k + 1;
      var n := Step(code, s.vms[h].local, fill);
      assert n != External;
      hide Inv, Step, Run, WaitOk, ChainOf, Write, PlainFunction;
      if n.Finished? {
        ParentIsNext(code, s, ch);
        OwnReturn(code, s, n.l, n.size, n.val, s1);
      }
    } else {
      ActFrame(code, s, ch, env, fill, s1, h);
      hide Inv, Step, Run, WaitOk, ChainOf, Write, Act, EnvOk;
      if !Untouched(s, s1, h) {
        ParentIsNext(code, s, ch);
        OwnNeverWaits(code, s, fill, l0, k, h, ch);
      }
    }
  }

  lemma OwnReturn(code: seq<Insn>, s: Sys, l: Local, size: nat, val: nat, s1: Sys)
    requires s.cur in s.vms && ActReturn(code, s, l, size, val) == Go(s1) && s.cur in s1.vms
    ensures s1.vms[s.cur].atEnd && size <= |l.stack| && s1.vms[s.cur].local.stack == Write(l.stack, 0, size, val)
  {
    hide Write, Set, InsnAt, Writable;
  }

  /** A plain function never stands above another machine. */
  lemma OwnNeverWaits(code: seq<Insn>, s: Sys, fill: Fill, l0: Local, k: nat, h: nat, ch: seq<nat>)
    requires PlainFunction(code, fill, l0) && h in s.vms && !s.vms[h].atEnd && OnItsOwn(code, fill, l0, s.vms[h], k)
    ensures !Suspended(code, s.vms, s.cur, h)
  {
    RunOne(code, fill, l0, k, s.vms[h].local);
    hide Step, Run;
    assert Run(code, l0, k + 1, fill) != External;
    if Suspended(code, s.vms, s.cur, h) {
      StepExternal(code, s.vms[h].local, fill);
    }
  }

  /** A resumable function that waits for nothing goes through the states it goes through on its own, for every
      clock and every sequence of waits, suspensions and resumptions around it. */
  lemma {:induction false} ScheduleIndependence(code: seq<Insn>, fill: Fill, states: seq<Sys>, envs: seq<Env>, ch: seq<nat>,
                                                h: nat, l0: Local, j: nat) returns (k: nat)
    requires IsRun(code, fill, states, envs) && j < |states| && Inv(code, states[0], ch) && PlainFunction(code, fill, l0)
    requires forall n :: 0 <= n <= j ==> h in states[n].vms
    requires !states[0].vms[h].atEnd && states[0].vms[h].waiting == NotWaiting && states[0].vms[h].local == l0
    ensures OnItsOwn(code, fill, l0, states[j].vms[h], k)
    decreases j
  {
    hide Inv, Steps, PlainFunction, ChainOf, Write;
    if j == 0 {
      k := 0;
    } else {
      var k1 := ScheduleIndependence(code, fill, states, envs, ch, h, l0, j - 1);
      RunKeepsInv(code, fill, states, envs, ch, j - 1);
      assert Steps(code, fill, states[j - 1], envs[j - 1], states[j - 1 + 1]);
      hide OnItsOwn;
      k := OwnStep(code, states[j - 1], ChainOf(states[j - 1]), envs[j - 1], fill, states[j], h, l0, k1);
    }
  }

  lemma OwnReaped(code: seq<Insn>, fill: Fill, l0: Local, v: Qvm, k: nat, size: nat) returns (k': nat)
    requires OnItsOwn(code, fill, l0, v, k) && Reaped(code, v, fill, size).Some?
    requires v.atEnd || Step(code, v.local, fill).Finished?
    ensures Run(code, l0, k', fill).Finished?
    ensures Run(code, l0, k', fill).size == size ==>
              Run(code, l0, k', fill).val % Pow256(size) == Reaped(code, v, fill, size).value
  {
    k' := k;
    if v.atEnd {
      hide Run;
      var n := Run(code, l0, k, fill);
      if n.size == size {
        ReadWritten(n.l.stack, size, n.val);
      }
    } else {
      RunOne(code, fill, l0, k, v.local);
      FinishedFits(code, v.local, fill);
      hide Step;
      k' := k + 1;
      SmallMod(Step(code, v.local, fill).val, Pow256(Step(code, v.local, fill).size));
    }
  }

  lemma SmallMod(v: nat, p: nat)
    requires v < p
    ensures v % p == v
  {
  }

  lemma {:induction false} EncMod(n: nat, v: nat)
    ensures Dec(Enc(n, v)) == v % Pow256(n)
  {
    if n > 0 {
      EncMod(n - 1, v / 256);
      assert Enc(n, v)[1..] == Enc(n - 1, v / 256);
      ModStep(v % 256, v / 256, Pow256(n - 1));
    }
  }

  lemma ReadWritten(m: Mem, n: nat, v: nat)
    requires n <= |m|
    ensures Read(Write(m, 0, n, v), 0, n) == v % Pow256(n)
  {
    EncMod(n, v);
    assert Write(m, 0, n, v)[0..0 + n] == Enc(n, v);
  }

  // ---------- a resumed call computes what a synchronous call computes ----------

  /** What the function returns when it is called on these values at some height of some stack. */
  ghost predicate Returns(m: SimBase.Image, g: nat, vals: seq<int>, noint: Flag, passed: Label, sp: nat, v: int)
    requires g < |m.w.prog| && g < |m.w.locals|
  {
    exists fuel: nat :: (var out := Source.EvalBody(m.w, g, vals, noint, passed, sp, fuel); out.Ok? && out.value.v == Some(v))
  }

  /** A compiled function is plain: it contains no instruction on quaints. */
  lemma CompiledIsPlain(m: SimBase.Image, g: nat, l0: Local, vals: seq<int>)
    requires Preservation.Started(m, g, l0, vals) && g < |m.w.prog| && g < |m.w.locals| && Preservation.Defined(m, g, l0, vals)
    ensures PlainFunction(m.code, m.fill, l0)
  {
    hide Preservation.Started, Preservation.Defined, Run;
    forall k: nat ensures Run(m.code, l0, k, m.fill) != External {
      Preservation.NothingGoesWrong(m, g, l0, vals, k);
    }
  }

  /** The value `*q` delivers is the pattern of the value the function returns when it is called synchronously,
      in whatever context that call is made, whatever the schedule was while q ran. */
  lemma AsynchronousEqualsSynchronous(m: SimBase.Image, g: nat, l0: Local, vals: seq<int>,
      states: seq<Sys>, envs: seq<Env>, ch: seq<nat>, h: nat, j: nat, x: nat,
      noint: Flag, passed: Label, sp: nat, v: int)
    requires Preservation.Started(m, g, l0, vals) && g < |m.w.prog| && g < |m.w.locals| && Preservation.Defined(m, g, l0, vals)
    requires IsRun(m.code, m.fill, states, envs) && j + 1 < |states| && Inv(m.code, states[0], ch)
    requires forall n :: 0 <= n <= j ==> h in states[n].vms
    requires !states[0].vms[h].atEnd && states[0].vms[h].waiting == NotWaiting && states[0].vms[h].local == l0
    requires x in states[j].vms && x in states[j + 1].vms && AtReap(m.code, states[j].vms[x], h)
    requires states[j + 1].vms[x].local != states[j].vms[x].local
    requires Returns(m, g, vals, noint, passed, sp, v)
    requires m.w.prog[g].ret.Some?
    ensures var i := InsnAt(m.code, states[j].vms[x].local);
      i.RteV? && Disjoint(i.dst, i.quaint) && i.dst.size == m.w.prog[g].ret.value.Size() ==>
        && InBounds(states[j + 1].vms[x].local, i.dst)
        && Get(states[j + 1].vms[x].local, i.dst) == m.w.prog[g].ret.value.Pat(v)
  {
    hide Inv, Preservation.Started, Preservation.Defined, Run, Steps, Step, AtReap, InsnAt, Get, InBounds;
    var s, s', code, fill := states[j], states[j + 1], m.code, m.fill;
    var i := InsnAt(code, s.vms[x].local);
    AtReapIs(code, s.vms[x], h);
    if i.RteV? && Disjoint(i.dst, i.quaint) && i.dst.size == m.w.prog[g].ret.value.Size() {
      CompiledIsPlain(m, g, l0, vals);
      var k := ScheduleIndependence(code, fill, states, envs, ch, h, l0, j);
      RunKeepsInv(code, fill, states, envs, ch, j);
      assert Steps(code, fill, states[j], envs[j], states[j + 1]);
      PastReap(code, s, ChainOf(s), envs[j], fill, s', x, h);
      hide OnItsOwn, Reaped;
      var k1 := OwnReaped(code, fill, l0, s.vms[h], k, i.dst.size);
      var n := Run(code, l0, k1, fill);
      Delivers(m, g, l0, vals, noint, passed, sp, v, k1);
      SmallMod(n.val, Pow256(n.size));
    }
  }

  lemma AtReapIs(code: seq<Insn>, v: Qvm, h: nat)
    requires AtReap(code, v, h)
    ensures InsnAt(code, v.local).Rte? || InsnAt(code, v.local).RteV?
  {
  }

  /** A finished run of a compiled function finished with the value every other call returns. */
  lemma Delivers(m: SimBase.Image, g: nat, l0: Local, vals: seq<int>, noint: Flag, passed: Label, sp: nat, v: int, k: nat)
    requires Preservation.Started(m, g, l0, vals) && g < |m.w.prog| && g < |m.w.locals| && Preservation.Defined(m, g, l0, vals)
    requires Returns(m, g, vals, noint, passed, sp, v) && Run(m.code, l0, k, m.fill).Finished?
    requires m.w.prog[g].ret.Some?
    ensures var n := Run(m.code, l0, k, m.fill);
      n.size == m.w.prog[g].ret.value.Size() && n.val == m.w.prog[g].ret.value.Pat(v) && n.val < Pow256(n.size)
  {
    hide Preservation.Started, Preservation.Defined, Run, Source.EvalBody;
    var fuel: nat :| var out := Source.EvalBody(m.w, g, vals, noint, passed, sp, fuel); out.Ok? && out.value.v == Some(v);
    SameReturn(m, g, l0, vals, noint, passed, sp, v, fuel);
    if Preservation.Means(m, g, l0, vals, fuel).Ok? {
      var k1 := Preservation.BodyFinishes(m, g, l0, vals, fuel);
      Preservation.DeliveredStops(m, g, Run(m.code, l0, k1, m.fill), Preservation.Means(m, g, l0, vals, fuel).value);
      Preservation.StopsOnce(m, l0, k, k1);
    } else {
      var k1 := Preservation.BodyFailsToReturn(m, g, l0, vals, fuel);
      Preservation.StopsOnce(m, l0, k, k1);
    }
  }

  lemma SameReturn(m: SimBase.Image, g: nat, l0: Local, vals: seq<int>, noint: Flag, passed: Label, sp: nat, v: int, fuel: nat)
    requires g < |m.w.prog| && g < |m.w.locals|
    requires var out := Source.EvalBody(m.w, g, vals, noint, passed, sp, fuel); out.Ok? && out.value.v == Some(v)
    ensures var here := Preservation.Means(m, g, l0, vals, fuel);
      here.Overflow? || (here.Ok? && here.value.v == Some(v))
  {
    hide Source.EvalBody;
    Contexts.SameBody(m.w, g, vals, l0.noint, noint, l0.passed, passed, l0.sp, sp, fuel);
  }

  // ---------- creating a quaint ----------

  lemma {:induction false} PushedMoved(a: Mem, b: Mem, from: nat, to: nat, vals: seq<int>, g: Func)
    requires SimCalls.Pushed(a, from, vals, g, 0)
    requires from + 8 * |vals| <= |a| && to + 8 * |vals| <= |b|
    requires a[from..from + 8 * |vals|] == b[to..to + 8 * |vals|]
    ensures SimCalls.Pushed(b, to, vals, g, 0)
  {
    forall j | 0 <= j < |vals| ensures SimCalls.PushedWord(b, to + 8 * j, g, 0 + j, vals[j]) {
      assert SimCalls.PushedWord(a, from + 8 * j, g, 0 + j, vals[j]);
      var n := g.vars[j].ty.value.Size();
      SliceSlice(a, from, from + 8 * |vals|, from + 8 * j, from + 8 * j + n);
      SliceSlice(b, to, to + 8 * |vals|, to + 8 * j, to + 8 * j + n);
    }
  }

  lemma SpawnedStack(cap: nat, loc: nat, args: Mem)
    requires 16 + |args| <= cap
    ensures Spawned(cap, loc, args).stack[16..16 + |args|] == args
  {
  }

  /** QNT on pushed arguments leaves a machine that is about to run the function on exactly those arguments, at
      the place where its parameters are, and takes them off the creator's stack. */
  lemma QntStarts(m: SimBase.Image, s: Sys, env: Env, i: Insn, s': Sys, g: nat, vals: seq<int>, ssp: nat)
    requires s.cur in s.vms && i.Qnt? && ActQnt(s, env, i) == Go(s') && env.addr !in s.vms
    requires SimBase.Compiled(m) && g < |m.w.prog| && g < |m.locs|
    requires var l := s.vms[s.cur].local;
      && |l.stack| == m.w.cap && InBounds(l, i.fn) && Get(l, i.fn) == m.locs[g]
      && InBounds(l, i.base) && Get(l, i.base) == ssp && l.sp == ssp + 8 * |vals| && l.sp <= |l.stack|
      && |vals| == m.w.prog[g].params && SimCalls.Pushed(l.stack, ssp, vals, m.w.prog[g], 0)
    ensures env.addr in s'.vms && s.cur in s'.vms && s'.vms[s.cur].local.sp == ssp
    ensures var q := s'.vms[env.addr];
      && Preservation.Started(m, g, q.local, vals) && !q.atEnd && q.waiting == NotWaiting && q.parent == None
      && q.local.atStart
  {
    var l := s.vms[s.cur].local;
    var args := l.stack[ssp..l.sp];
    hide SimBase.Compiled, Set, Get, InBounds, SimCalls.Pushed, Zeros;
    SpawnedStack(|l.stack|, m.locs[g], args);
    assert l.stack[ssp..ssp + 8 * |vals|] == args;
    PushedMoved(l.stack, Spawned(|l.stack|, m.locs[g], args).stack, ssp, 16, vals, m.w.prog[g]);
  }
}
