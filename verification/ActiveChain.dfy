/** The active chain: following `parent` from the running machine reaches the root without a cycle, and every
    machine above the running one is stopped at the WAIT, RTE or RTEV that resumed the one below it. */
module ActiveChain {
  import opened Options
  import opened Bytes
  import opened Words
  import opened Ast
  import opened Insn
  import opened Machine
  import opened Quaint

  /** The machine whose fate the instruction at hand depends on. */
  function WaitedOn(code: seq<Insn>, l: Local): Option<nat> {
    match InsnAt(code, l)
    case Wait(q, _, _, _, _) => Handle(l, q)
    case Rte(q) => Handle(l, q)
    case RteV(_, q) => Handle(l, q)
    case _ => None
  }

  predicate Alive(vms: map<nat, Qvm>, x: nat) {
    x in vms && !vms[x].atEnd
  }

  /** x is suspended over child. */
  predicate Suspended(code: seq<Insn>, vms: map<nat, Qvm>, child: nat, x: nat) {
    && x in vms && child in vms && vms[child].parent == Some(x)
    && WaitedOn(code, vms[x].local) == Some(child)
    && (InsnAt(code, vms[x].local).Wait? ==> vms[x].waiting != NotWaiting)
  }

  predicate Chain(code: seq<Insn>, s: Sys, ch: seq<nat>) {
    && ch != [] && ch[0] == s.cur && Distinct(ch)
    && (forall i :: 0 <= i < |ch| ==> Alive(s.vms, ch[i]))
    && (forall i :: 0 <= i < |ch| - 1 ==> Suspended(code, s.vms, ch[i], ch[i + 1]))
    && s.vms[ch[|ch| - 1]].parent == None
  }

  function Interval(tm: nat, seconds: bool): nat {
    (tm * if seconds then 1_000_000_000 else 1_000_000) % WORD
  }

  /** The flags say what the wait instruction says. */
  predicate KindOk(l: Local, i: Insn, w: Waiting)
    requires i.Wait?
  {
    match w
    case NotWaiting => true
    case Plain => !i.timed && i.lab.func == 0
    case Until(lab) => !i.timed && lab == i.lab && lab.func != 0
    case For(_, interval) =>
      var tm := TimeoutOf(l, i.timeout);
      i.timed && tm.Some? && tm.value != 0 && interval == Interval(tm.value, i.seconds)
  }

  /** A machine flagged as waiting stands at its wait instruction, over a running child of its own. */
  predicate WaitOk(code: seq<Insn>, vms: map<nat, Qvm>, x: nat)
    requires x in vms
  {
    var v := vms[x];
    v.waiting != NotWaiting ==>
      var i := InsnAt(code, v.local);
      && !v.atEnd && i.Wait?
      && var h := Handle(v.local, i.quaint);
         && h.Some? && h.value != 0 && h.value != x && Alive(vms, h.value) && vms[h.value].parent == Some(x)
         && KindOk(v.local, i, v.waiting)
  }

  predicate Inv(code: seq<Insn>, s: Sys, ch: seq<nat>) {
    && Chain(code, s, ch) && 0 !in s.vms
    && forall x :: x in s.vms ==> WaitOk(code, s.vms, x)
  }

  /** The pointers followed from x, as many as there are machines. */
  function Up(vms: map<nat, Qvm>, x: nat, fuel: nat): seq<nat>
    decreases fuel
  {
    if fuel == 0 || x !in vms then []
    else [x] + match vms[x].parent
               case None => []
               case Some(p) => Up(vms, p, fuel - 1)
  }

  function ChainOf(s: Sys): seq<nat> {
    Up(s.vms, s.cur, |s.vms|)
  }

  /** Ownership: the machine a WAIT, RTE or RTEV names is live, not an ancestor of the running one nor itself,
      and not already the child of another machine. */
  predicate UseOk(code: seq<Insn>, s: Sys) {
    s.cur in s.vms ==>
      var h := WaitedOn(code, s.vms[s.cur].local);
      h.Some? && h.value != 0 ==>
        && h.value in s.vms && h.value !in ChainOf(s)
        && (s.vms[h.value].parent == None || s.vms[h.value].parent == Some(s.cur))
  }

  predicate EnvOk(s: Sys, env: Env) {
    env.addr != 0 && env.addr !in s.vms
  }

  // ---------- the pointers are the chain ----------

  lemma {:induction false} UpIsChain(code: seq<Insn>, s: Sys, ch: seq<nat>, i: nat, fuel: nat)
    requires Chain(code, s, ch) && i < |ch| && fuel >= |ch| - i
    ensures Up(s.vms, ch[i], fuel) == ch[i..]
    decreases |ch| - i
  {
    assert Alive(s.vms, ch[i]);
    if i < |ch| - 1 {
      assert Suspended(code, s.vms, ch[i], ch[i + 1]);
      UpIsChain(code, s, ch, i + 1, fuel - 1);
      assert ch[i..] == [ch[i]] + ch[i + 1..];
    } else {
      assert ch[i..] == [ch[i]];
    }
  }

  lemma {:induction false} DistinctFits(xs: seq<nat>, m: map<nat, Qvm>)
    requires Distinct(xs) && forall i :: 0 <= i < |xs| ==> xs[i] in m
    ensures |xs| <= |m|
  {
    if xs != [] {
      var last := |xs| - 1;
      var m' := map x | x in m && x != xs[last] :: m[x];
      assert m.Keys == m'.Keys + {xs[last]};
      assert |m.Keys| == |m| && |m'.Keys| == |m'|;
      DistinctFits(xs[..last], m');
    }
  }

  lemma ChainIs(code: seq<Insn>, s: Sys, ch: seq<nat>)
    requires Chain(code, s, ch)
    ensures ChainOf(s) == ch
  {
    forall i | 0 <= i < |ch| ensures ch[i] in s.vms {
      assert Alive(s.vms, ch[i]);
    }
    DistinctFits(ch, s.vms);
    UpIsChain(code, s, ch, 0, |s.vms|);
  }

  // ---------- what a change leaves intact ----------

  /** The part of the chain from index k on survives when its first machine stays alive under the same parent
      and the others do not change. */
  lemma ChainKept(code: seq<Insn>, s: Sys, ch: seq<nat>, s': Sys, k: nat)
    requires Chain(code, s, ch) && k < |ch| && s'.cur == ch[k]
    requires Alive(s'.vms, ch[k]) && ch[k] in s.vms && s'.vms[ch[k]].parent == s.vms[ch[k]].parent
    requires forall j :: k < j < |ch| ==> ch[j] in s'.vms && ch[j] in s.vms && s'.vms[ch[j]] == s.vms[ch[j]]
    ensures Chain(code, s', ch[k..])
  {
    var ch' := ch[k..];
    forall i | 0 <= i < |ch'| ensures Alive(s'.vms, ch'[i]) {
      assert Alive(s.vms, ch[k + i]);
    }
    forall i | 0 <= i < |ch'| - 1 ensures Suspended(code, s'.vms, ch'[i], ch'[i + 1]) {
      assert Suspended(code, s.vms, ch[k + i], ch[k + (i + 1)]);
    }
    forall i, j | 0 <= i < j < |ch'| ensures ch'[i] != ch'[j] {
      assert ch[k + i] != ch[k + j];
    }
    assert ch'[|ch'| - 1] == ch[|ch| - 1];
  }

  lemma ChainMembers(code: seq<Insn>, s: Sys, ch: seq<nat>, i: nat)
    requires Chain(code, s, ch) && i < |ch|
    ensures Alive(s.vms, ch[i]) && ch[i] in s.vms
    ensures forall j :: 0 <= j < |ch| && j != i ==> ch[j] != ch[i]
    ensures i > 0 ==> Suspended(code, s.vms, ch[i - 1], ch[i])
  {
    if i > 0 {
      assert ch[i - 1 + 1] == ch[i];
      assert Suspended(code, s.vms, ch[i - 1], ch[i - 1 + 1]);
    }
  }

  /** A machine that does not change keeps its flags right as long as the child it waits on lives on. */
  lemma WaitKept(code: seq<Insn>, vms: map<nat, Qvm>, vms': map<nat, Qvm>, x: nat)
    requires x in vms && x in vms' && vms'[x] == vms[x] && WaitOk(code, vms, x)
    requires vms[x].waiting != NotWaiting && WaitedOn(code, vms[x].local).Some? ==>
               var h := WaitedOn(code, vms[x].local).value;
               Alive(vms', h) && h in vms && vms'[h].parent == vms[h].parent
    ensures WaitOk(code, vms', x)
  {
  }

  /** The running machine changes privately, machines may be created, ended ones may be freed. */
  lemma PrivateStep(code: seq<Insn>, s: Sys, ch: seq<nat>, s': Sys)
    requires Inv(code, s, ch) && s.cur in s.vms && s'.cur == s.cur && 0 !in s'.vms
    requires Alive(s'.vms, s.cur) && s'.vms[s.cur].parent == s.vms[s.cur].parent && s'.vms[s.cur].waiting == NotWaiting
    requires forall y :: y in s.vms && y != s.cur ==> if y in s'.vms then s'.vms[y] == s.vms[y] else s.vms[y].atEnd
    requires forall y :: y in s'.vms && y !in s.vms ==> s'.vms[y].waiting == NotWaiting
    ensures Inv(code, s', ch)
  {
    hide WaitOk, InsnAt, Handle, Suspended;
    forall j | 0 < j < |ch| ensures ch[j] in s'.vms && ch[j] in s.vms && s'.vms[ch[j]] == s.vms[ch[j]] {
      assert ch[j] != ch[0];
      assert Alive(s.vms, ch[j]);
    }
    ChainKept(code, s, ch, s', 0);
    assert ch[0..] == ch;
    forall x | x in s'.vms ensures WaitOk(code, s'.vms, x) {
      if x == s.cur || x !in s.vms {
        NotWaitingOk(code, s'.vms, x);
      } else {
        assert WaitOk(code, s.vms, x);
        if s.vms[x].waiting != NotWaiting {
          WaitFacts(code, s.vms, x);
        }
        WaitKept(code, s.vms, s'.vms, x);
      }
    }
  }

  lemma NotWaitingOk(code: seq<Insn>, vms: map<nat, Qvm>, x: nat)
    requires x in vms && vms[x].waiting == NotWaiting
    ensures WaitOk(code, vms, x)
  {
  }

  lemma WaitFacts(code: seq<Insn>, vms: map<nat, Qvm>, x: nat)
    requires x in vms && WaitOk(code, vms, x) && vms[x].waiting != NotWaiting
    ensures InsnAt(code, vms[x].local).Wait? && !vms[x].atEnd
    ensures WaitedOn(code, vms[x].local).Some?
    ensures var h := WaitedOn(code, vms[x].local).value;
      h != 0 && h != x && Alive(vms, h) && vms[h].parent == Some(x)
    ensures KindOk(vms[x].local, InsnAt(code, vms[x].local), vms[x].waiting)
  {
  }

  /** The running machine suspends itself over h. */
  lemma DescendStep(code: seq<Insn>, s: Sys, ch: seq<nat>, h: nat, w: Waiting, now: nat)
    requires Inv(code, s, ch) && s.cur in s.vms && Alive(s.vms, h) && h !in ch
    requires s.vms[h].parent == None || s.vms[h].parent == Some(s.cur)
    requires h != 0 && WaitedOn(code, s.vms[s.cur].local) == Some(h)
    requires if InsnAt(code, s.vms[s.cur].local).Wait?
             then w != NotWaiting && KindOk(s.vms[s.cur].local, InsnAt(code, s.vms[s.cur].local), w)
             else w == s.vms[s.cur].waiting
    ensures Inv(code, Descend(s, h, w).(now := now), [h] + ch)
  {
    hide InsnAt, Handle, KindOk;
    var s' := Descend(s, h, w).(now := now);
    var x, ch' := s.cur, [h] + ch;
    assert ch[0] == x && x in ch;
    forall j | 0 < j < |ch| ensures ch[j] != x && s'.vms[ch[j]] == s.vms[ch[j]] && ch[j] in s.vms {
      assert ch[0] != ch[j] && ch[j] in ch && Alive(s.vms, ch[j]);
    }
    assert ChainMembersOk(code, s', ch') by {
      forall i | 0 <= i < |ch'| ensures Alive(s'.vms, ch'[i]) {
        if i > 0 {
          assert Alive(s.vms, ch[i - 1]);
        }
      }
      forall i | 0 <= i < |ch'| - 1 ensures Suspended(code, s'.vms, ch'[i], ch'[i + 1]) {
        if i > 0 {
          assert Suspended(code, s.vms, ch[i - 1], ch[i - 1 + 1]);
        }
      }
    }
    assert s'.vms[ch'[|ch'| - 1]].parent == None by {
      assert ch'[|ch'| - 1] == ch[|ch| - 1];
    }
    assert Distinct(ch') by {
      forall i, j | 0 <= i < j < |ch'| ensures ch'[i] != ch'[j] {
        assert ch'[j] == ch[j - 1] && ch[j - 1] in ch;
      }
    }
    forall y | y in s'.vms ensures WaitOk(code, s'.vms, y) {
      DescendWaits(code, s, h, w, y);
    }
  }

  predicate ChainMembersOk(code: seq<Insn>, s: Sys, ch: seq<nat>) {
    && (forall i :: 0 <= i < |ch| ==> Alive(s.vms, ch[i]))
    && (forall i :: 0 <= i < |ch| - 1 ==> Suspended(code, s.vms, ch[i], ch[i + 1]))
  }

  lemma DescendWaits(code: seq<Insn>, s: Sys, h: nat, w: Waiting, y: nat)
    requires s.cur in s.vms && Alive(s.vms, h) && h != s.cur && h != 0 && y in s.vms
    requires s.vms[h].parent == None || s.vms[h].parent == Some(s.cur)
    requires WaitedOn(code, s.vms[s.cur].local) == Some(h) && !s.vms[s.cur].atEnd
    requires if InsnAt(code, s.vms[s.cur].local).Wait?
             then w != NotWaiting && KindOk(s.vms[s.cur].local, InsnAt(code, s.vms[s.cur].local), w)
             else w == s.vms[s.cur].waiting
    requires WaitOk(code, s.vms, y) && WaitOk(code, s.vms, s.cur)
    ensures WaitOk(code, Descend(s, h, w).vms, y)
  {
    hide KindOk, Handle;
  }

  /** The running machine has ended under a wait, or is gone after RTE or RTEV; its parent goes on. */
  lemma AscendStep(code: seq<Insn>, s: Sys, ch: seq<nat>, s': Sys)
    requires Inv(code, s, ch) && |ch| > 1 && s'.cur == ch[1] && 0 !in s'.vms
    requires s.cur in s.vms && s.vms[s.cur].waiting == NotWaiting
    requires Alive(s'.vms, ch[1]) && ch[1] in s.vms && s'.vms[ch[1]].parent == s.vms[ch[1]].parent
    requires s'.vms[ch[1]].waiting == NotWaiting
    requires s.cur in s'.vms ==> s'.vms[s.cur].waiting == NotWaiting
    requires forall y :: y in s.vms && y != s.cur && y != ch[1] ==> y in s'.vms && s'.vms[y] == s.vms[y]
    requires forall y :: y in s'.vms ==> y in s.vms
    ensures Inv(code, s', ch[1..])
  {
    hide WaitOk, InsnAt, Handle, KindOk;
    forall j | 1 < j < |ch| ensures ch[j] in s'.vms && ch[j] in s.vms && s'.vms[ch[j]] == s.vms[ch[j]] {
      assert ch[0] != ch[j] && ch[1] != ch[j] && Alive(s.vms, ch[j]);
    }
    ChainKept(code, s, ch, s', 1);
    assert Suspended(code, s.vms, ch[0], ch[0 + 1]);
    forall y | y in s'.vms ensures WaitOk(code, s'.vms, y) {
      if y == s.cur || y == ch[1] {
        NotWaitingOk(code, s'.vms, y);
      } else {
        if s.vms[y].waiting != NotWaiting {
          WaitFacts(code, s.vms, y);
        }
        WaitKept(code, s.vms, s'.vms, y);
      }
    }
  }

  // ---------- one instruction ----------

  lemma CurFacts(code: seq<Insn>, s: Sys, ch: seq<nat>)
    requires Inv(code, s, ch)
    ensures s.cur in s.vms && Alive(s.vms, s.cur) && ch[0] == s.cur && ChainOf(s) == ch && s.cur != 0
    ensures WaitOk(code, s.vms, s.cur)
  {
    hide WaitOk;
    ChainIs(code, s, ch);
    assert Alive(s.vms, ch[0]);
  }

  lemma WaitActs(code: seq<Insn>, s: Sys, ch: seq<nat>, env: Env, i: Insn, s': Sys) returns (ch': seq<nat>)
    requires Inv(code, s, ch) && UseOk(code, s) && s.cur in s.vms
    requires i == InsnAt(code, s.vms[s.cur].local) && i.Wait? && ActWait(s, env, i) == Go(s')
    ensures Inv(code, s', ch') && (ch' == ch || (|ch'| == |ch| + 1 && ch'[1..] == ch))
  {
    CurFacts(code, s, ch);
    hide Inv, WaitOk, ChainOf;
    var v := s.vms[s.cur];
    var l := v.local;
    var h := Handle(l, i.quaint);
    if v.waiting != NotWaiting {
      WaitFacts(code, s.vms, s.cur);
    }
    if h.value == 0 || s.vms[h.value].atEnd || (i.timed && TimeoutOf(l, i.timeout).value == 0) {
      ch' := ch;
      InvZero(code, s, ch);
      PrivateStep(code, s, ch, s');
    } else {
      ch' := [h.value] + ch;
      var w := s'.vms[s.cur].waiting;
      assert h.value != s.cur;
      DescendStep(code, s, ch, h.value, w, s'.now);
      assert s' == Descend(s, h.value, w).(now := s'.now);
    }
  }

  lemma InvZero(code: seq<Insn>, s: Sys, ch: seq<nat>)
    requires Inv(code, s, ch)
    ensures 0 !in s.vms
  {
  }
}
