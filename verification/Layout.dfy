/** Frame layout: the slots create_frame_layout gives to the parameters and to the variables of
    arbitrarily nested blocks. */
module Layout {
  import opened Words
  import opened Ast

  datatype Slot = Slot(off: nat, size: nat)

  datatype Lay = Lay(frame: nat, slots: map<nat, Slot>)

  function AlignUp(a: nat, align: nat): (r: nat)
    requires align > 0
    ensures a <= r < a + align && r % align == 0
  {
    var rem := a % align;
    assert rem == 0 || (a + align - rem) % align == 0 by { AlignArith(a, align); }
    if rem == 0 then a else a + align - rem
  }

  lemma AlignUpUnique(a: nat, align: nat, r: nat)
    requires align > 0 && a <= r < a + align && r % align == 0
    ensures AlignUp(a, align) == r
  {
    var s := AlignUp(a, align);
    var p, q := r / align, s / align;
    assert r == align * p && s == align * q;
    if p < q {
      MulMonoInt(align, p + 1, q);
    } else if q < p {
      MulMonoInt(align, q + 1, p);
    }
  }

  lemma AlignArith(a: nat, align: nat)
    requires align > 0
    ensures a % align != 0 ==> (a + align - a % align) % align == 0
  {
    var q := a / align;
    assert a == align * q + a % align;
    assert a + align - a % align == align * (q + 1);
    ModUniqueInt(align * (q + 1), align, q + 1, 0);
  }

  function LayParam(f: Func, i: nat, acc: Lay): Lay
    requires i < |f.vars|
  {
    Lay(AlignUp(acc.frame + f.vars[i].size, 8), acc.slots[i := Slot(acc.frame, f.vars[i].size)])
  }

  function LayParams(f: Func, i: nat, acc: Lay): Lay
    requires i <= f.params <= |f.vars|
    decreases f.params - i
  {
    if i == f.params then acc
    else LayParams(f, i + 1, LayParam(f, i, acc))
  }

  function LayVar(f: Func, x: nat, acc: Lay): Lay
    requires x < |f.vars| && f.vars[x].align > 0
  {
    var off := AlignUp(acc.frame, f.vars[x].align);
    Lay(off + f.vars[x].size, acc.slots[x := Slot(off, f.vars[x].size)])
  }

  predicate Placeable(f: Func, xs: seq<nat>) {
    forall k :: 0 <= k < |xs| ==> xs[k] < |f.vars| && AlignOk(f.vars[xs[k]].align)
  }

  /** Slots for a list of variables, one after the other. */
  function LayVars(f: Func, xs: seq<nat>, acc: Lay): Lay
    requires Placeable(f, xs)
  {
    if xs == [] then acc else LayVars(f, xs[1..], LayVar(f, xs[0], acc))
  }

  function ParamLay(f: Func): Lay
    requires DeclsOk(f)
  {
    LayParams(f, 0, Lay(0, map[]))
  }

  function ArgsSize(f: Func): nat
    requires DeclsOk(f)
  {
    ParamLay(f).frame
  }

  function FrameLay(f: Func): Lay
    requires DeclsOk(f)
  {
    var l := LayVars(f, DeclIdsOf(f.body), ParamLay(f));
    Lay(AlignUp(l.frame, 8), l.slots)
  }

  /** Every slot lies inside the frame laid out so far, at an aligned offset, and no two slots share a byte. */
  predicate GoodLay(f: Func, l: Lay) {
    && (forall x :: x in l.slots ==>
          && x < |f.vars| && AlignOk(f.vars[x].align)
          && l.slots[x].size == f.vars[x].size
          && l.slots[x].off + l.slots[x].size <= l.frame
          && l.slots[x].off % f.vars[x].align == 0)
    && (forall x, y :: x in l.slots && y in l.slots && x != y ==>
          Apart(l.slots[x], l.slots[y]))
  }

  predicate Apart(a: Slot, b: Slot) {
    a.off + a.size <= b.off || b.off + b.size <= a.off
  }

  lemma MultipleOf8(a: nat, align: nat)
    requires a % 8 == 0 && AlignOk(align)
    ensures a % align == 0
  {
    var q := a / 8;
    assert a == 8 * q;
    if align == 4 {
      assert a == 4 * (2 * q);
    } else if align == 2 {
      assert a == 2 * (4 * q);
    }
  }

  predicate AlignsOk(f: Func) {
    forall x: nat :: x < |f.vars| ==> AlignOk(f.vars[x].align)
  }

  lemma LayParamGood(f: Func, i: nat, acc: Lay)
    requires i < f.params <= |f.vars| && AlignsOk(f)
    requires GoodLay(f, acc) && acc.frame % 8 == 0 && i !in acc.slots
    ensures GoodLay(f, LayParam(f, i, acc)) && LayParam(f, i, acc).frame % 8 == 0
    ensures acc.frame <= LayParam(f, i, acc).frame
  {
    MultipleOf8(acc.frame, f.vars[i].align);
  }

  lemma {:induction false} LayParamsGood(f: Func, i: nat, acc: Lay)
    requires i <= f.params <= |f.vars| && AlignsOk(f)
    requires GoodLay(f, acc) && acc.frame % 8 == 0 && (forall x: nat :: x in acc.slots <==> x < i)
    ensures var l := LayParams(f, i, acc);
      && GoodLay(f, l) && l.frame % 8 == 0
      && (forall x: nat :: x in l.slots <==> x < f.params)
    decreases f.params - i
  {
    if i < f.params {
      LayParamGood(f, i, acc);
      LayParamsGood(f, i + 1, LayParam(f, i, acc));
    }
  }

  lemma LayVarGood(f: Func, x: nat, acc: Lay)
    requires x < |f.vars| && AlignOk(f.vars[x].align) && GoodLay(f, acc) && x !in acc.slots
    ensures GoodLay(f, LayVar(f, x, acc)) && LayVar(f, x, acc).slots.Keys == acc.slots.Keys + {x}
    ensures acc.frame <= LayVar(f, x, acc).frame
    ensures forall y :: y in acc.slots ==> LayVar(f, x, acc).slots[y] == acc.slots[y]
  {
  }

  lemma TailFresh(xs: seq<nat>, m: map<nat, Slot>, m': map<nat, Slot>)
    requires xs != [] && Distinct(xs) && (forall x :: x in xs ==> x !in m)
    requires m'.Keys == m.Keys + {xs[0]}
    ensures Distinct(xs[1..]) && forall x :: x in xs[1..] ==> x !in m'
  {
    forall x | x in xs[1..] ensures x !in m' {
      var k :| 0 <= k < |xs[1..]| && xs[1..][k] == x;
      assert xs[k + 1] == x && x in xs;
    }
  }

  /** Laying out fresh variables keeps every slot already given and gives each one a good slot. */
  lemma {:induction false} LayVarsGood(f: Func, xs: seq<nat>, acc: Lay)
    requires Placeable(f, xs) && GoodLay(f, acc)
    requires Distinct(xs) && forall x :: x in xs ==> x !in acc.slots
    ensures var l := LayVars(f, xs, acc);
      && GoodLay(f, l) && acc.frame <= l.frame
      && (forall x :: x in l.slots <==> x in acc.slots || x in xs)
      && (forall x :: x in acc.slots ==> l.slots[x] == acc.slots[x])
  {
    hide GoodLay, LayVar;
    if xs != [] {
      LayVarGood(f, xs[0], acc);
      var next := LayVar(f, xs[0], acc);
      TailFresh(xs, acc.slots, next.slots);
      LayVarsGood(f, xs[1..], next);
      assert xs == [xs[0]] + xs[1..];
    }
  }

  /** The frame of a function: exactly its parameters and the variables of all its blocks have slots,
      pairwise disjoint, aligned and inside frame_size, which is a multiple of 8. */
  lemma FrameLayGood(f: Func)
    requires DeclsOk(f)
    ensures GoodLay(f, FrameLay(f)) && FrameLay(f).frame % 8 == 0
    ensures forall x: nat :: x in FrameLay(f).slots <==> Declared(f, x)
    ensures ArgsSize(f) <= FrameLay(f).frame && ArgsSize(f) % 8 == 0
    ensures forall x: nat :: x < f.params ==>
              x in ParamLay(f).slots && x in FrameLay(f).slots && FrameLay(f).slots[x] == ParamLay(f).slots[x]
  {
    LayParamsGood(f, 0, Lay(0, map[]));
    LayVarsGood(f, DeclIdsOf(f.body), ParamLay(f));
  }

  /** Laying out the concatenation of two lists is laying out one after the other: blocks nest freely. */
  lemma {:induction false} LayVarsConcat(f: Func, xs: seq<nat>, ys: seq<nat>, acc: Lay)
    requires Placeable(f, xs) && Placeable(f, ys)
    ensures Placeable(f, xs + ys)
    ensures LayVars(f, xs + ys, acc) == LayVars(f, ys, LayVars(f, xs, acc))
  {
    if xs == [] {
      assert xs + ys == ys;
    } else {
      assert (xs + ys)[1..] == xs[1..] + ys;
      LayVarsConcat(f, xs[1..], ys, LayVar(f, xs[0], acc));
    }
  }

  /** When every parameter takes at most a word, the i-th parameter sits at offset 8*i: where the i-th PUSH puts it. */
  lemma {:induction false} LayParamsWords(f: Func, i: nat, acc: Lay)
    requires i <= f.params <= |f.vars| && acc.frame == 8 * i
    requires ScalarParams(f)
    requires forall x: nat :: x < i ==> x in acc.slots && acc.slots[x].off == 8 * x
    ensures LayParams(f, i, acc).frame == 8 * f.params
    ensures forall x: nat :: x < f.params ==>
              x in LayParams(f, i, acc).slots && LayParams(f, i, acc).slots[x].off == 8 * x
    decreases f.params - i
  {
    if i < f.params {
      assert Scalar(f, i);
      AlignUpUnique(acc.frame + f.vars[i].size, 8, 8 * (i + 1));
      LayParamsWords(f, i + 1, LayParam(f, i, acc));
    }
  }

  predicate ScalarParams(f: Func) {
    forall x: nat :: x < f.params ==> Scalar(f, x)
  }

  lemma ParamsAreWhereArgumentsArePushed(f: Func)
    requires DeclsOk(f) && ScalarParams(f)
    ensures ArgsSize(f) == 8 * f.params
    ensures forall x: nat :: x < f.params ==> x in FrameLay(f).slots && FrameLay(f).slots[x].off == 8 * x
  {
    FrameLayGood(f);
    LayParamsWords(f, 0, Lay(0, map[]));
  }
}
