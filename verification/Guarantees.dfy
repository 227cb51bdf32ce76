/** What the instructions on quaints guarantee, in every reachable state and for every clock. */
module Guarantees {
  import opened Options
  import opened Bytes
  import opened Words
  import opened Ast
  import opened Insn
  import opened Machine
  import opened Quaint
  import opened ActiveChain
  import opened Protocol

  // ---------- what one instruction does to a machine that is not running ----------

  /** x's private state is what it was. */
  predicate Untouched(s: Sys, s1: Sys, x: nat) {
    && x in s.vms && x in s1.vms && s1.vms[x].local == s.vms[x].local
    && s1.vms[x].waiting == s.vms[x].waiting && s1.vms[x].atEnd == s.vms[x].atEnd
  }

  lemma WaitTouches(s: Sys, env: Env, i: Insn, s1: Sys, x: nat)
    requires i.Wait? && s.cur in s.vms && ActWait(s, env, i) == Go(s1) && x != s.cur && x in s.vms
    ensures Untouched(s, s1, x)
  {
    hide Handle, TimeoutOf;
  }

  lemma ReapTouches(s: Sys, dst: Option<Opd>, q: Opd, s1: Sys, x: nat)
    requires s.cur in s.vms && ActReap(s, dst, q) == Go(s1) && x != s.cur && x in s.vms && x in s1.vms
    ensures Untouched(s, s1, x)
  {
    hide Handle, Set, Get, Read;
  }

  lemma OthersTouch(s: Sys, env: Env, i: Insn, s1: Sys, x: nat)
    requires s.cur in s.vms && x != s.cur && x in s.vms && env.addr !in s.vms
    requires (i.Qat? && ActQat(s, i) == Go(s1)) || (i.Qnt? && ActQnt(s, env, i) == Go(s1))
             || (i.QntV? && ActQntV(s, env, i) == Go(s1))
    ensures Untouched(s, s1, x)
  {
    hide Handle, Set, Get, Write, Spawned, Zeros;
  }

  lemma ReturnTouches(code: seq<Insn>, s: Sys, l: Local, size: nat, val: nat, s1: Sys, x: nat)
    requires s.cur in s.vms && ActReturn(code, s, l, size, val) == Go(s1) && x != s.cur && x in s.vms && x in s1.vms
    ensures Untouched(s, s1, x) || (s.vms[s.cur].parent == Some(x) && s1.cur == x)
  {
    hide Handle, Set, Get, Write;
  }

  /** Of the machines that are not running, an instruction changes at most the parent of one that returns. */
  lemma ActFrame(code: seq<Insn>, s: Sys, ch: seq<nat>, env: Env, fill: Fill, s1: Sys, x: nat)
    requires Inv(code, s, ch) && EnvOk(s, env) && Act(code, s, env, fill) == Go(s1)
    requires x in s.vms && x in s1.vms && x != s.cur
    ensures s.cur in s.vms
    ensures Untouched(s, s1, x) || (|ch| > 1 && x == ch[1] && s1.cur == x && Step(code, s.vms[s.cur].local, fill).Finished?)
  {
    CurFacts(code, s, ch);
    ParentIsNext(code, s, ch);
    hide Inv, Step, WaitOk, ChainOf, ActWait, ActReap, ActQat, ActQnt, ActQntV, ActReturn, Suspended;
    var l := s.vms[s.cur].local;
    match Step(code, l, fill)
    case Next(_) =>
    case Finished(l1, size, val) => ReturnTouches(code, s, l1, size, val, s1, x);
    case External =>
      match InsnAt(code, l) {
        case Wait(_, _, _, _, _) => WaitTouches(s, env, code[l.ip], s1, x);
        case Rte(q) => ReapTouches(s, None, q, s1, x);
        case RteV(dst, q) => ReapTouches(s, Some(dst), q, s1, x);
        case Qat(_, _, _) => OthersTouch(s, env, code[l.ip], s1, x);
        case Qnt(_, _, _) => OthersTouch(s, env, code[l.ip], s1, x);
        case QntV(_, _) => OthersTouch(s, env, code[l.ip], s1, x);
        case _ => assert false;
      }
    case Illegal => assert false;
    case Fault => assert false;
  }

  // ---------- waits ----------

  /** Why a machine may get past a WAIT on h: h has ended, its last label is the awaited one, or the time is up. */
  predicate Excused(i: Insn, l: Local, h: nat, vms: map<nat, Qvm>, start: nat, now: nat)
    requires i.Wait?
  {
    || (h in vms && vms[h].atEnd)
    || (!i.timed && i.lab.func != 0 && h in vms && vms[h].local.passed == i.lab)
    || (i.timed && TimeoutOf(l, i.timeout) == Some(0))
    || (i.timed && TimeoutOf(l, i.timeout).Some?
        && (now - start) % WORD >= Interval(TimeoutOf(l, i.timeout).value, i.seconds))
  }

  /** x stands at a WAIT on h. */
  predicate AtWait(code: seq<Insn>, v: Qvm, h: nat) {
    InsnAt(code, v.local).Wait? && h != 0 && Handle(v.local, InsnAt(code, v.local).quaint) == Some(h)
  }

  lemma ActPastWait(code: seq<Insn>, s: Sys, ch: seq<nat>, env: Env, fill: Fill, s1: Sys, x: nat, h: nat)
    requires Inv(code, s, ch) && UseOk(code, s) && EnvOk(s, env) && Act(code, s, env, fill) == Go(s1)
    requires x in s.vms && x in s1.vms && AtWait(code, s.vms[x], h)
    ensures var i, l := InsnAt(code, s.vms[x].local), s.vms[x].local;
      || (s1.vms[x].local == l
          && (s1.vms[x].waiting == s.vms[x].waiting
              || (x == s.cur && (s1.vms[x].waiting.For? ==> s1.vms[x].waiting.start == env.waitClock % WORD))))
      || (h in s1.vms && s1.vms[h].atEnd)
      || (i.timed && TimeoutOf(l, i.timeout) == Some(0))
  {
    CurFacts(code, s, ch);
    if x == s.cur {
      StepExternal(code, s.vms[x].local, fill);
      hide Inv, UseOk, EnvOk, Step, Set, Get, Handle, WaitOk, ChainOf, TimeoutOf, KindOk;
    } else {
      ActFrame(code, s, ch, env, fill, s1, x);
      if |ch| > 1 && x == ch[1] && Step(code, s.vms[s.cur].local, fill).Finished? {
        ReturnPastWait(code, s, ch, env, fill, s1, h);
      }
    }
  }

  /** A return that resumes a waiter leaves the awaited machine ended. */
  lemma ReturnPastWait(code: seq<Insn>, s: Sys, ch: seq<nat>, env: Env, fill: Fill, s1: Sys, h: nat)
    requires Inv(code, s, ch) && s.cur in s.vms && |ch| > 1 && ch[1] in s.vms && Act(code, s, env, fill) == Go(s1)
    requires Step(code, s.vms[s.cur].local, fill).Finished? && AtWait(code, s.vms[ch[1]], h)
    ensures h in s1.vms && s1.vms[h].atEnd
  {
    ParentIsNext(code, s, ch);
    hide Inv, Step, Handle, WaitOk, Write;
  }

  /** When a machine gets past a WAIT on a machine h: after a plain wait h has ended; after a wait until a label
      h has ended or that label is the last one it has passed; after a timed wait h has ended or the time since
      the wait was last begun is up.  How often the waiter was itself suspended meanwhile makes no difference. */
  lemma PastWait(code: seq<Insn>, s: Sys, ch: seq<nat>, env: Env, fill: Fill, s': Sys, x: nat, h: nat) returns (start: nat)
    requires Inv(code, s, ch) && Steps(code, fill, s, env, s')
    requires x in s.vms && x in s'.vms && AtWait(code, s.vms[x], h)
    requires s'.vms[x].local != s.vms[x].local
    ensures Excused(InsnAt(code, s.vms[x].local), s.vms[x].local, h, s'.vms, start, s'.now)
    ensures (x == s.cur && start == env.waitClock % WORD) || (s.vms[x].waiting.For? && start == s.vms[x].waiting.start)
            || !InsnAt(code, s.vms[x].local).timed
            || (h in s'.vms && s'.vms[h].atEnd) || TimeoutOf(s.vms[x].local, InsnAt(code, s.vms[x].local).timeout) == Some(0)
  {
    hide Inv, UseOk, EnvOk, Act, Check, Handle, InsnAt, TimeoutOf;
    var s1 := Act(code, s, env, fill).s;
    var ch1 := ActKeepsInv(code, s, ch, env, fill, s1);
    var k := CheckKeepsInv(code, s1, ch1, env);
    ActPastWait(code, s, ch, env, fill, s1, x, h);
    if h in s1.vms && s1.vms[h].atEnd {
      EndedStays(code, s1, ch1, k, h);
    }
    start := env.waitClock % WORD;
    if s1.vms[x].local == s.vms[x].local {
      if s1.vms[x].waiting == s.vms[x].waiting && s.vms[x].waiting.For? {
        start := s.vms[x].waiting.start;
      }
      SplitReason(code, s1, ch1, k, x, h, s'.now);
      SplitLeaves(code, s1, ch1, k);
    }
  }

  lemma EndedStays(code: seq<Insn>, s: Sys, ch: seq<nat>, k: nat, h: nat)
    requires Inv(code, s, ch) && k < |ch| && h in s.vms && s.vms[h].atEnd
    ensures ch[k] != h
  {
    InvChain(code, s, ch);
    ChainMembers(code, s, ch, k);
  }

  lemma SplitLeaves(code: seq<Insn>, s: Sys, ch: seq<nat>, k: nat)
    requires Inv(code, s, ch) && 0 < k < |ch|
    ensures ch[k - 1] in s.vms && ch[k - 1] != ch[k]
  {
    InvChain(code, s, ch);
    ChainMembers(code, s, ch, k);
    ChainMembers(code, s, ch, k - 1);
  }

  /** A split resumes a waiter for the reason its instruction states. */
  lemma SplitReason(code: seq<Insn>, s: Sys, ch: seq<nat>, k: nat, x: nat, h: nat, now: nat)
    requires Inv(code, s, ch) && x in s.vms && AtWait(code, s.vms[x], h)
    requires 0 < k < |ch| && x == ch[k] && Nearest(s.vms, ch, 0, k, now)
    ensures h == ch[k - 1] && h in s.vms
    ensures var i, l, w := InsnAt(code, s.vms[x].local), s.vms[x].local, s.vms[x].waiting;
      || (!i.timed && i.lab.func != 0 && s.vms[h].local.passed == i.lab)
      || (i.timed && TimeoutOf(l, i.timeout).Some? && w.For?
          && (now - w.start) % WORD >= Interval(TimeoutOf(l, i.timeout).value, i.seconds))
  {
    InvChain(code, s, ch);
    ChainMembers(code, s, ch, k);
    InvWaits(code, s, ch, x);
    hide Inv, Chain, TimeoutOf, Handle, ClearBelow;
  }

  lemma InvWaits(code: seq<Insn>, s: Sys, ch: seq<nat>, x: nat)
    requires Inv(code, s, ch) && x in s.vms
    ensures WaitOk(code, s.vms, x)
  {
    hide WaitOk, Chain;
  }

  // ---------- reaping ----------

  /** x stands at an RTE or RTEV of h. */
  predicate AtReap(code: seq<Insn>, v: Qvm, h: nat) {
    var i := InsnAt(code, v.local);
    (i.Rte? || i.RteV?) && h != 0 && Handle(v.local, i.quaint) == Some(h)
  }

  /** Two operands of one frame that share no byte. */
  predicate Disjoint(a: Opd, b: Opd) {
    || (a.Temp? && b.Auto?) || (a.Auto? && b.Temp?)
    || (a.Temp? && b.Temp? && (a.off + a.size <= b.off || b.off + b.size <= a.off))
    || (a.Auto? && b.Auto? && (a.off + a.size <= b.off || b.off + b.size <= a.off))
  }

  lemma SetGet(l: Local, o: Opd, v: nat)
    requires Writable(l, o) && v < Pow256(o.size)
    ensures InBounds(Set(l, o, v), o) && Get(Set(l, o, v), o) == v && Set(l, o, v).ip == l.ip
  {
    match o
    case Temp(_, off, size) => ReadBack(l.temps[0], off, size, v);
    case Auto(_, off, size) => ReadBack(l.stack, l.bp + off, size, v);
  }

  lemma SetOther(l: Local, o: Opd, v: nat, o': Opd)
    requires Writable(l, o) && InBounds(l, o') && Disjoint(o', o)
    ensures InBounds(Set(l, o, v), o') && Get(Set(l, o, v), o') == Get(l, o')
  {
    if o.Temp? && o'.Temp? {
      ReadElsewhere(l.temps[0], o.off, o.size, v, o'.off, o'.size);
    } else if o.Auto? && o'.Auto? {
      ReadElsewhere(l.stack, l.bp + o.off, o.size, v, l.bp + o'.off, o'.size);
    }
  }

  lemma WordFits()
    ensures 0 < Pow256(8) && 0 < Pow256(1) && 0 < Pow256(2) && 0 < Pow256(4)
  {
  }

  /** The value word, then the nulled handle. */
  lemma Deliver(l: Local, dst: Option<Opd>, val: nat, q: Opd) returns (l2: Local)
    requires dst.Some? ==> Writable(l, dst.value) && val < Pow256(dst.value.size)
    requires Writable(if dst.Some? then Set(l, dst.value, val) else l, q) && q.size == 8
    ensures l2 == Set(if dst.Some? then Set(l, dst.value, val) else l, q, 0) && l2.ip == l.ip
    ensures InBounds(l2, q) && Get(l2, q) == 0
    ensures dst.Some? && Disjoint(dst.value, q) ==> InBounds(l2, dst.value) && Get(l2, dst.value) == val
  {
    WordFits();
    var l1 := if dst.Some? then Set(l, dst.value, val) else l;
    l2 := Set(l1, q, 0);
    hide Set, Get, InBounds;
    if dst.Some? {
      SetGet(l, dst.value, val);
      if Disjoint(dst.value, q) {
        SetOther(l1, q, 0, dst.value);
      }
    }
    SetGet(l1, q, 0);
  }

  /** The word an ended machine keeps for whoever reaps it, or the word a returning one hands over. */
  function Reaped(code: seq<Insn>, v: Qvm, fill: Fill, size: nat): Option<nat> {
    if v.atEnd then (if size <= |v.local.stack| then Some(Read(v.local.stack, 0, size)) else None)
    else
      match Step(code, v.local, fill)
      case Finished(_, n, val) => if n == size then Some(val) else None
      case _ => None
  }

  predicate ReapResult(code: seq<Insn>, v: Qvm, fill: Fill, x: Local, i: Insn, x': Local)
    requires i.Rte? || i.RteV?
  {
    && x'.ip == x.ip + 1 && InBounds(x', i.quaint) && Get(x', i.quaint) == 0
    && (i.RteV? && Disjoint(i.dst, i.quaint) ==> InBounds(x', i.dst))
    && (i.RteV? && Disjoint(i.dst, i.quaint) ==> Reaped(code, v, fill, i.dst.size) == Some(Get(x', i.dst)))
  }

  /** ActReap on a live handle: the child is entered, or it has ended and is freed. */
  lemma ReapCases(s: Sys, dst: Option<Opd>, q: Opd, s1: Sys, h: nat)
    requires s.cur in s.vms && ActReap(s, dst, q) == Go(s1)
    requires h != 0 && Handle(s.vms[s.cur].local, q) == Some(h)
    ensures h in s.vms && h != s.cur && (dst.Some? ==> Writable(s.vms[s.cur].local, dst.value)) && q.size == 8
    ensures !s.vms[h].atEnd ==> s1.vms == Descend(s, h, s.vms[s.cur].waiting).vms
    ensures s.vms[h].atEnd && dst.Some? ==> dst.value.size <= |s.vms[h].local.stack|
    ensures s.vms[h].atEnd ==>
      var l := s.vms[s.cur].local;
      var l1 := if dst.Some? then Set(l, dst.value, Read(s.vms[h].local.stack, 0, dst.value.size)) else l;
      && Writable(l1, q) && s1.cur == s.cur && h !in s1.vms && s.cur in s1.vms && s1.vms[s.cur].local == Advance(Set(l1, q, 0))
  {
    hide Set, Read, InBounds, Get;
  }

  lemma DescendKeeps(s: Sys, h: nat, w: Waiting)
    requires s.cur in s.vms && h in s.vms && h != s.cur
    ensures s.cur in Descend(s, h, w).vms && Descend(s, h, w).vms[s.cur].local == s.vms[s.cur].local
  {
  }

  lemma ReapNow(code: seq<Insn>, s: Sys, dst: Option<Opd>, q: Opd, fill: Fill, s1: Sys, h: nat)
    requires s.cur in s.vms && ActReap(s, dst, q) == Go(s1) && s.cur in s1.vms
    requires InsnAt(code, s.vms[s.cur].local) == if dst.Some? then RteV(dst.value, q) else Rte(q)
    requires AtReap(code, s.vms[s.cur], h)
    ensures s1.vms[s.cur].local == s.vms[s.cur].local
            || (h in s.vms && h !in s1.vms && s.vms[h].atEnd && s1.cur == s.cur
                && ReapResult(code, s.vms[h], fill, s.vms[s.cur].local, InsnAt(code, s.vms[s.cur].local), s1.vms[s.cur].local))
  {
    hide ActReap, Set, Get, InBounds, Read, Step, Descend, Advance, Handle, Writable, Disjoint;
    ReapCases(s, dst, q, s1, h);
    DescendKeeps(s, h, s.vms[s.cur].waiting);
    if s.vms[h].atEnd {
      var val := if dst.Some? then Read(s.vms[h].local.stack, 0, dst.value.size) else 0;
      var l2 := Deliver(s.vms[s.cur].local, dst, val, q);
      AdvanceKeeps(l2, q);
      if dst.Some? {
        AdvanceKeeps(l2, dst.value);
      }
    }
  }

  /** A machine resumes after `*q` only once the function behind q has returned: in that very instruction q is
      freed, the handle becomes null, and the value that q's return left or hands over is delivered. */
  lemma PastReap(code: seq<Insn>, s: Sys, ch: seq<nat>, env: Env, fill: Fill, s': Sys, x: nat, h: nat)
    requires Inv(code, s, ch) && Steps(code, fill, s, env, s')
    requires x in s.vms && x in s'.vms && AtReap(code, s.vms[x], h) && s'.vms[x].local != s.vms[x].local
    ensures h in s.vms && h !in s'.vms && (s.vms[h].atEnd || (h == s.cur && Step(code, s.vms[h].local, fill).Finished?))
    ensures ReapResult(code, s.vms[h], fill, s.vms[x].local, InsnAt(code, s.vms[x].local), s'.vms[x].local)
  {
    hide Inv, UseOk, EnvOk, Act, Check, Handle, InsnAt, ReapResult, Step;
    var s1 := Act(code, s, env, fill).s;
    var ch1 := ActKeepsInv(code, s, ch, env, fill, s1);
    var k := CheckKeepsInv(code, s1, ch1, env);
    ActPastReap(code, s, ch, env, fill, s1, x, h);
    if s1.vms[x].local == s.vms[x].local {
      if k > 0 && x == ch1[k] {
        OnlyWaitersSplit(code, s1, ch1, k, s'.now, h);
      }
    } else {
      CurFacts(code, s1, ch1);
      EndsApart(code, s1, ch1, k);
    }
  }

  lemma EndsApart(code: seq<Insn>, s: Sys, ch: seq<nat>, k: nat)
    requires Inv(code, s, ch) && k < |ch|
    ensures k > 0 ==> ch[k] != ch[0]
  {
    InvChain(code, s, ch);
    ChainMembers(code, s, ch, k);
  }

  lemma OnlyWaitersSplit(code: seq<Insn>, s: Sys, ch: seq<nat>, k: nat, now: nat, h: nat)
    requires Inv(code, s, ch) && 0 < k < |ch| && Nearest(s.vms, ch, 0, k, now) && ch[k] in s.vms
    ensures !AtReap(code, s.vms[ch[k]], h)
  {
    InvWaits(code, s, ch, ch[k]);
    hide Inv, Handle, ClearBelow;
  }

  lemma ActPastReap(code: seq<Insn>, s: Sys, ch: seq<nat>, env: Env, fill: Fill, s1: Sys, x: nat, h: nat)
    requires Inv(code, s, ch) && EnvOk(s, env) && Act(code, s, env, fill) == Go(s1)
    requires x in s.vms && x in s1.vms && AtReap(code, s.vms[x], h)
    ensures s1.vms[x].local == s.vms[x].local
            || (h in s.vms && h !in s1.vms && s1.cur == x
                && (s.vms[h].atEnd || (h == s.cur && Step(code, s.vms[h].local, fill).Finished?))
                && ReapResult(code, s.vms[h], fill, s.vms[x].local, InsnAt(code, s.vms[x].local), s1.vms[x].local))
  {
    CurFacts(code, s, ch);
    if x == s.cur {
      StepExternal(code, s.vms[x].local, fill);
      hide Inv, Step, WaitOk, ChainOf, ReapResult, ActReap;
      var i := InsnAt(code, s.vms[x].local);
      if i.Rte? {
        ReapNow(code, s, None, i.quaint, fill, s1, h);
      } else {
        ReapNow(code, s, Some(i.dst), i.quaint, fill, s1, h);
      }
    } else {
      ActFrame(code, s, ch, env, fill, s1, x);
      if |ch| > 1 && x == ch[1] && Step(code, s.vms[s.cur].local, fill).Finished? {
        ReturnPastReap(code, s, ch, env, fill, s1, h);
      }
    }
  }

  lemma FinishedFits(code: seq<Insn>, l: Local, fill: Fill)
    ensures Step(code, l, fill).Finished? ==> Step(code, l, fill).val < Pow256(Step(code, l, fill).size)
  {
    hide Get, Set, Alu, AluUn, AluCmp, Bump, CastPat;
  }

  /** handle_return over an RTE or RTEV, spelt out. */
  lemma ReturnReaps(code: seq<Insn>, s: Sys, l: Local, size: nat, val: nat, s1: Sys, p: nat)
    requires s.cur in s.vms && s.vms[s.cur].parent == Some(p) && ActReturn(code, s, l, size, val) == Go(s1)
    requires p in s.vms && (InsnAt(code, s.vms[p].local).Rte? || InsnAt(code, s.vms[p].local).RteV?)
    ensures var i, pl := InsnAt(code, s.vms[p].local), s.vms[p].local;
      && s.cur !in s1.vms && s1.cur == p && p in s1.vms
      && (i.RteV? ==> i.dst.size == size && Writable(pl, i.dst) && Writable(Set(pl, i.dst, val), i.quaint))
      && (i.RteV? ==> s1.vms[p].local == Advance(Set(Set(pl, i.dst, val), i.quaint, 0)))
      && (i.Rte? ==> Writable(pl, i.quaint) && s1.vms[p].local == Advance(Set(pl, i.quaint, 0)))
  {
    hide Set, InsnAt, Writable, Write;
  }

  lemma ReturnPastReap(code: seq<Insn>, s: Sys, ch: seq<nat>, env: Env, fill: Fill, s1: Sys, h: nat)
    requires Inv(code, s, ch) && s.cur in s.vms && |ch| > 1 && ch[1] in s.vms && Act(code, s, env, fill) == Go(s1)
    requires Step(code, s.vms[s.cur].local, fill).Finished? && AtReap(code, s.vms[ch[1]], h) && ch[1] in s1.vms
    ensures h == s.cur && h !in s1.vms && s1.cur == ch[1] && !s.vms[h].atEnd
    ensures ReapResult(code, s.vms[h], fill, s.vms[ch[1]].local, InsnAt(code, s.vms[ch[1]].local), s1.vms[ch[1]].local)
  {
    hide Inv, Step, WaitOk, Write, ChainOf, Set, Get, ActReturn;
    ParentIsNext(code, s, ch);
    CurFacts(code, s, ch);
    FinishedFits(code, s.vms[s.cur].local, fill);
    var p := s.vms[ch[1]].local;
    var i := InsnAt(code, p);
    var n := Step(code, s.vms[s.cur].local, fill);
    ReturnReaps(code, s, n.l, n.size, n.val, s1, ch[1]);
    hide InsnAt, Suspended, InBounds;
    HandleSize(p, i.quaint);
    var l2 := Deliver(p, if i.RteV? then Some(i.dst) else None, n.val, i.quaint);
    AdvanceKeeps(l2, i.quaint);
    if i.RteV? {
      AdvanceKeeps(l2, i.dst);
    }
  }

  lemma HandleSize(l: Local, o: Opd)
    ensures Handle(l, o).Some? ==> o.size == 8
  {
  }

  lemma AdvanceKeeps(l: Local, o: Opd)
    ensures Advance(l).ip == l.ip + 1 && (InBounds(l, o) ==> InBounds(Advance(l), o) && Get(Advance(l), o) == Get(l, o))
  {
  }

  // ---------- noint ----------

  /** While x has noint set and has not returned, the chain from x upward stays as it is and none of the machines
      above x changes: whatever executes is x or a machine below it. */
  lemma NoIntStep(code: seq<Insn>, s: Sys, ch: seq<nat>, m: nat, env: Env, fill: Fill, s': Sys) returns (m': nat)
    requires Inv(code, s, ch) && Steps(code, fill, s, env, s') && m < |ch|
    requires Alive(s'.vms, ch[m]) && s'.vms[ch[m]].local.noint.on
    ensures Inv(code, s', ChainOf(s')) && m' < |ChainOf(s')| && ChainOf(s')[m'..] == ch[m..]
    ensures forall j :: m < j < |ch| ==> ch[j] in s.vms && ch[j] in s'.vms && s'.vms[ch[j]] == s.vms[ch[j]]
  {
    hide Inv, UseOk, EnvOk, Act, Check, ChainOf, Resumable;
    var x := ch[m];
    var s1 := Act(code, s, env, fill).s;
    var ch1 := ActKeepsInv(code, s, ch, env, fill, s1);
    var k := CheckKeepsInv(code, s1, ch1, env);
    ActAbove(code, s, ch, m, env, fill, s1, ch1);
    if m == 0 && ch1 == ch[1..] {
      CurFacts(code, s, ch);
      if x in s1.vms {
        EndedStays(code, s1, ch1, k, x);
      }
      assert false;
    }
    var m1 := Shifted(ch, ch1, m);
    if k > m1 {
      assert Interruptible(s1.vms, ch1, m1);
      EndsDiffer(code, s1, ch1, m1, k);
    }
    CurFacts(code, s', ch1[k..]);
    m' := m1 - k;
    assert ch1[k..][m'..] == ch1[m1..];
    if k > 0 {
      SplitBelow(code, s1, ch1, m1, k, ch, m);
    }
  }

  /** Where the chain from m upward is found after an instruction. */
  lemma Shifted(ch: seq<nat>, ch1: seq<nat>, m: nat) returns (m1: nat)
    requires m < |ch| && !(m == 0 && ch1 == ch[1..])
    requires ch1 == ch || (|ch1| == |ch| + 1 && ch1[1..] == ch) || (|ch| > 1 && ch1 == ch[1..])
    ensures m1 < |ch1| && ch1[m1..] == ch[m..] && ch1[m1] == ch[m]
  {
    if ch1 == ch {
      m1 := m;
    } else if |ch1| == |ch| + 1 {
      m1 := m + 1;
      assert ch1[m1..] == ch1[1..][m..];
    } else {
      m1 := m - 1;
      assert ch1[m1..] == ch[1..][m1..];
    }
    assert ch1[m1] == ch1[m1..][0];
  }

  lemma SplitBelow(code: seq<Insn>, s1: Sys, ch1: seq<nat>, m1: nat, k: nat, ch: seq<nat>, m: nat)
    requires Inv(code, s1, ch1) && k <= m1 < |ch1| && m < |ch| && ch1[m1..] == ch[m..]
    ensures forall j :: m < j < |ch| ==> ch[j] != ch1[k]
  {
    hide Inv;
    forall j | m < j < |ch| ensures ch[j] != ch1[k] {
      assert ch[j] == ch[m..][j - m] == ch1[m1..][j - m] == ch1[m1 + (j - m)];
      EndsDiffer(code, s1, ch1, m1 + (j - m), k);
    }
  }

  /** What an instruction leaves of the machines above index m of the chain. */
  lemma ActAbove(code: seq<Insn>, s: Sys, ch: seq<nat>, m: nat, env: Env, fill: Fill, s1: Sys, ch1: seq<nat>)
    requires Inv(code, s, ch) && EnvOk(s, env) && Act(code, s, env, fill) == Go(s1) && Inv(code, s1, ch1) && m < |ch|
    requires ch1 == ch || (|ch1| == |ch| + 1 && ch1[1..] == ch) || (|ch| > 1 && ch1 == ch[1..])
    ensures forall j :: m < j < |ch| && (m > 0 || ch1 != ch[1..]) ==>
              ch[j] in s.vms && ch[j] in s1.vms && s1.vms[ch[j]] == s.vms[ch[j]]
  {
    hide Inv, Act, Step, EnvOk;
    CurFacts(code, s, ch);
    CurFacts(code, s1, ch1);
    forall j | m < j < |ch| && (m > 0 || ch1 != ch[1..])
      ensures ch[j] in s.vms && ch[j] in s1.vms && s1.vms[ch[j]] == s.vms[ch[j]]
    {
      EndsDiffer(code, s, ch, j, 0);
      EndsDiffer(code, s, ch, j, 1);
      var j1 := if ch1 == ch then j else if |ch1| == |ch| + 1 then j + 1 else j - 1;
      assert ch1[j1] == ch[j];
      if j1 > 0 {
        EndsDiffer(code, s1, ch1, j1, 0);
      }
      ChainReading(code, s, ch, j);
      ChainReading(code, s1, ch1, j1);
      assert j + 1 < |ch| ==> ch1[j1 + 1] == ch[j + 1];
      ActFrame(code, s, ch, env, fill, s1, ch[j]);
    }
  }

  lemma EndsDiffer(code: seq<Insn>, s: Sys, ch: seq<nat>, i: nat, k: nat)
    requires Inv(code, s, ch) && i < |ch| && k < |ch|
    ensures i != k ==> ch[i] != ch[k]
  {
    InvChain(code, s, ch);
    ChainMembers(code, s, ch, k);
  }
}
