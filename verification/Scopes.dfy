/** Scopes: the marking of duplicates, the sorted table with its binary search, and what a name means. */
module Scopes {
  import opened Options
  import opened Words
  import opened Ast

  /** A name: its text, and where in the source it stands. */
  datatype Symbol = Symbol(text: string, at: nat)

  /** What a name in a scope stands for.  An automatic variable remembers where its declaration's first name is. */
  datatype Kind = Duplicate | Constant(id: nat) | Builtin(id: nat) | Global(decl: nat) | Automatic(decl: nat, first: nat)
    | Function(func: nat) | Parameter(idx: nat)

  datatype Object = Object(name: Symbol, kind: Kind)

  // ---------- the order of names ----------

  /** strcmp(a, b) < 0 */
  predicate Before(a: string, b: string) {
    b != [] && (a == [] || a[0] < b[0] || (a[0] == b[0] && Before(a[1..], b[1..])))
  }

  /** strcmp orders all names: of two different ones exactly one comes first. */
  lemma {:induction false} BeforeIsTotal(a: string, b: string)
    ensures !Before(a, a)
    ensures a != b ==> (Before(a, b) <==> !Before(b, a))
    decreases |a|
  {
    if a != [] {
      BeforeIsTotal(a[1..], if b == [] then [] else b[1..]);
      if b != [] && a[0] == b[0] {
        assert a == [a[0]] + a[1..] && b == [b[0]] + b[1..];
      }
    }
  }

  lemma {:induction false} BeforeIsTransitive(a: string, b: string, c: string)
    requires Before(a, b) && Before(b, c)
    ensures Before(a, c)
    decreases |a|
  {
    if a != [] && a[0] == b[0] == c[0] {
      BeforeIsTransitive(a[1..], b[1..], c[1..]);
    }
  }

  predicate Sorted(names: seq<string>) {
    forall j, k :: 0 <= j < k < |names| ==> !Before(names[k], names[j])
  }

  function Names(objs: seq<Object>): (ns: seq<string>)
    ensures |ns| == |objs|
    ensures forall k :: 0 <= k < |objs| ==> ns[k] == objs[k].name.text
  {
    seq(|objs|, k requires 0 <= k < |objs| => objs[k].name.text)
  }

  // ---------- duplicates ----------

  predicate Repeated(objs: seq<Object>, k: nat)
    requires k < |objs|
  {
    exists j :: 0 <= j < |objs| && j != k && objs[j].name.text == objs[k].name.text
  }

  predicate Unmarked(objs: seq<Object>) {
    forall k :: 0 <= k < |objs| ==> !objs[k].kind.Duplicate?
  }

  /** Every object whose name occurs twice is marked, the first one too. */
  function Marked(objs: seq<Object>): (ms: seq<Object>)
    ensures |ms| == |objs|
    ensures forall k :: 0 <= k < |objs| ==>
      ms[k] == if Repeated(objs, k) then objs[k].(kind := Duplicate) else objs[k]
  {
    seq(|objs|, k requires 0 <= k < |objs| => if Repeated(objs, k) then objs[k].(kind := Duplicate) else objs[k])
  }

  predicate Same(objs: seq<Object>, j: nat, k: nat)
    requires j < |objs| && k < |objs|
  {
    objs[j].name.text == objs[k].name.text
  }

  /** Marked once the outer loop is past the first `outer` objects: it equals another object, and one of the two is
      among them. */
  predicate MarkedBy(objs: seq<Object>, outer: nat, k: nat)
    requires k < |objs|
  {
    exists j :: 0 <= j < |objs| && j != k && Same(objs, j, k) && (j < outer || k < outer)
  }

  lemma MarkedNext(objs: seq<Object>, outer: nat, k: nat)
    requires outer < |objs| && k < |objs|
    ensures MarkedBy(objs, outer + 1, k) <==>
      || MarkedBy(objs, outer, k)
      || (k == outer && LaterSame(objs, outer))
      || (k > outer && Same(objs, outer, k))
  {
    if k > outer && Same(objs, outer, k) {
      assert MarkedBy(objs, outer + 1, k);
    }
    if k == outer && LaterSame(objs, outer) {
      var j :| outer < j < |objs| && Same(objs, outer, j);
      assert Same(objs, j, k);
    }
    if MarkedBy(objs, outer + 1, k) && !MarkedBy(objs, outer, k) {
      var j :| 0 <= j < |objs| && j != k && Same(objs, j, k) && (j < outer + 1 || k < outer + 1);
      assert Same(objs, k, j);
    }
  }

  lemma MarkedEnd(objs: seq<Object>, k: nat)
    requires k < |objs|
    ensures MarkedBy(objs, |objs|, k) <==> Repeated(objs, k)
  {
    if Repeated(objs, k) {
      var j :| 0 <= j < |objs| && j != k && objs[j].name.text == objs[k].name.text;
      assert Same(objs, j, k);
    }
  }

  predicate SomeMarked(objs: seq<Object>, outer: nat) {
    exists k :: 0 <= k < |objs| && MarkedBy(objs, outer, k)
  }

  predicate LaterSame(objs: seq<Object>, outer: nat)
    requires outer < |objs|
  {
    exists j :: outer < j < |objs| && Same(objs, outer, j)
  }

  lemma SomeMarkedNext(objs: seq<Object>, outer: nat)
    requires outer < |objs|
    ensures SomeMarked(objs, outer + 1) <==> SomeMarked(objs, outer) || LaterSame(objs, outer)
  {
    hide MarkedBy;
    MarkedNext(objs, outer, outer);
    if SomeMarked(objs, outer + 1) {
      var k :| 0 <= k < |objs| && MarkedBy(objs, outer + 1, k);
      MarkedNext(objs, outer, k);
    }
    if SomeMarked(objs, outer) {
      var k :| 0 <= k < |objs| && MarkedBy(objs, outer, k);
      MarkedNext(objs, outer, k);
    }
  }

  /** An object marked before its turn adds no marks of its own. */
  lemma MarkedBefore(objs: seq<Object>, outer: nat, k: nat)
    requires outer < |objs| && k < |objs| && MarkedBy(objs, outer, outer)
    ensures MarkedBy(objs, outer + 1, k) <==> MarkedBy(objs, outer, k)
  {
    MarkedNext(objs, outer, k);
    if k > outer && Same(objs, outer, k) {
      var j :| 0 <= j < |objs| && j != outer && Same(objs, j, outer) && j < outer;
      assert Same(objs, j, k);
    }
  }

  function Marking(objs: seq<Object>, k: nat, marked: bool): Object
    requires k < |objs|
  {
    if marked then objs[k].(kind := Duplicate) else objs[k]
  }

  /** find_duplicates */
  method FindDuplicates(objs: array<Object>) returns (duplicated: bool)
    requires Unmarked(objs[..])
    modifies objs
    ensures objs[..] == Marked(old(objs[..]))
    ensures duplicated <==> exists k :: 0 <= k < objs.Length && Repeated(old(objs[..]), k)
  {
    ghost var raw := objs[..];
    duplicated := false;
    var outer := 0;
    while outer < objs.Length
      invariant 0 <= outer <= objs.Length
      invariant forall k :: 0 <= k < objs.Length ==> objs[k] == Marking(raw, k, MarkedBy(raw, outer, k))
      invariant duplicated <==> SomeMarked(raw, outer)
    {
      hide MarkedBy, Repeated;
      if objs[outer].kind.Duplicate? {
        forall k | 0 <= k < objs.Length ensures MarkedBy(raw, outer + 1, k) <==> MarkedBy(raw, outer, k) {
          MarkedBefore(raw, outer, k);
        }
      } else {
        var found := MarkEqual(objs, outer, raw);
        SomeMarkedNext(raw, outer);
        duplicated := duplicated || found;
      }
      outer := outer + 1;
    }
    forall k | 0 <= k < objs.Length ensures MarkedBy(raw, outer, k) <==> Repeated(raw, k) {
      MarkedEnd(raw, k);
    }
  }

  /** The inner loop: the later objects of the same name are marked, and then the object itself. */
  method MarkEqual(objs: array<Object>, outer: nat, ghost raw: seq<Object>) returns (found: bool)
    requires outer < objs.Length == |raw|
    requires forall k :: 0 <= k < objs.Length ==> objs[k] == Marking(raw, k, MarkedBy(raw, outer, k))
    modifies objs
    ensures forall k :: 0 <= k < objs.Length ==> objs[k] == Marking(raw, k, MarkedBy(raw, outer + 1, k))
    ensures found <==> LaterSame(raw, outer)
  {
    hide MarkedBy;
    found := false;
    var inner := outer + 1;
    while inner < objs.Length
      invariant outer < inner <= objs.Length
      invariant found <==> exists k :: outer < k < inner && Same(raw, outer, k)
      invariant forall k :: 0 <= k < objs.Length ==>
        objs[k] == Marking(raw, k, MarkedBy(raw, outer, k) || (outer < k < inner && Same(raw, outer, k)))
    {
      if objs[outer].name.text == objs[inner].name.text {
        assert Same(raw, outer, inner);
        found := true;
        objs[inner] := objs[inner].(kind := Duplicate);
      }
      inner := inner + 1;
    }
    if found {
      objs[outer] := objs[outer].(kind := Duplicate);
    }
    forall k | 0 <= k < objs.Length ensures objs[k] == Marking(raw, k, MarkedBy(raw, outer + 1, k)) {
      MarkedNext(raw, outer, k);
    }
  }

  // ---------- the sorted table ----------

  /** What qsort leaves: the same objects, in the order of their names; equal names in any order. */
  predicate SortingOf(objs: seq<Object>, from: seq<Object>) {
    multiset(objs) == multiset(from) && Sorted(Names(objs))
  }

  /** A scope's table: its objects in the order of declaration, marked and then sorted. */
  predicate Table(objs: seq<Object>, raw: seq<Object>) {
    Unmarked(raw) && SortingOf(objs, Marked(raw))
  }

  /** bsearch, whichever elements it looks at: some entry of that name, or none if there is none. */
  method Search(names: seq<string>, needle: string) returns (hit: Option<nat>)
    requires Sorted(names)
    ensures hit.Some? ==> hit.value < |names| && names[hit.value] == needle
    ensures hit.None? ==> needle !in names
  {
    var lo, hi := 0, |names|;
    while lo < hi
      invariant 0 <= lo <= hi <= |names|
      invariant forall k :: 0 <= k < lo ==> Before(names[k], needle)
      invariant forall k :: hi <= k < |names| ==> Before(needle, names[k])
    {
      var mid: nat :| lo <= mid < hi;
      BeforeIsTotal(names[mid], needle);
      if names[mid] == needle {
        return Some(mid);
      } else if Before(names[mid], needle) {
        AllBefore(names, mid, needle);
        lo := mid + 1;
      } else {
        AllAfter(names, mid, needle);
        hi := mid;
      }
    }
    forall k | 0 <= k < |names| ensures names[k] != needle {
      BeforeIsTotal(names[k], names[k]);
    }
    return None;
  }

  lemma NotAfter(a: string, b: string, c: string)
    requires !Before(b, a) && Before(b, c)
    ensures Before(a, c)
  {
    BeforeIsTotal(a, b);
    if a != b {
      BeforeIsTransitive(a, b, c);
    }
  }

  lemma NotBefore(a: string, b: string, c: string)
    requires Before(a, b) && !Before(c, b)
    ensures Before(a, c)
  {
    BeforeIsTotal(c, b);
    if c != b {
      BeforeIsTransitive(a, b, c);
    }
  }

  lemma AllBefore(names: seq<string>, mid: nat, needle: string)
    requires Sorted(names) && mid < |names| && Before(names[mid], needle)
    ensures forall k :: 0 <= k <= mid ==> Before(names[k], needle)
  {
    forall k | 0 <= k < mid ensures Before(names[k], needle) {
      NotAfter(names[k], names[mid], needle);
    }
  }

  lemma AllAfter(names: seq<string>, mid: nat, needle: string)
    requires Sorted(names) && mid < |names| && Before(needle, names[mid])
    ensures forall k :: mid <= k < |names| ==> Before(needle, names[k])
  {
    forall k | mid < k < |names| ensures Before(needle, names[k]) {
      NotBefore(needle, names[mid], names[k]);
    }
  }

  // ---------- what a name means ----------

  /** The first object of that name in the order of declaration. */
  function First(raw: seq<Object>, text: string, i: nat): (r: Option<nat>)
    requires i <= |raw|
    ensures r.Some? ==> i <= r.value < |raw| && raw[r.value].name.text == text
    ensures r.None? ==> forall k :: i <= k < |raw| ==> raw[k].name.text != text
    decreases |raw| - i
  {
    if i == |raw| then None
    else if raw[i].name.text == text then Some(i)
    else First(raw, text, i + 1)
  }

  /** An automatic variable may be used only after its declaration's first name. */
  predicate Usable(o: Object, use: Symbol) {
    o.kind.Automatic? ==> use.at > o.kind.first
  }

  /** The linear search, innermost scope first: a scope that declares the name exactly once decides. */
  function Lookup(raws: seq<seq<Object>>, use: Symbol): Option<Object> {
    if raws == [] then None
    else
      var k := First(raws[0], use.text, 0);
      if k.None? || Repeated(raws[0], k.value) then Lookup(raws[1..], use)
      else if Usable(raws[0][k.value], use) then Some(raws[0][k.value])
      else None
  }

  /** A scope with its sorted table, and the one around it. */
  datatype Scope = Scope(objs: seq<Object>, outer: Option<Scope>)

  predicate Built(s: Scope, raws: seq<seq<Object>>)
    decreases s
  {
    && raws != [] && Table(s.objs, raws[0])
    && if s.outer.Some? then Built(s.outer.value, raws[1..]) else |raws| == 1
  }

  lemma InTable(objs: seq<Object>, raw: seq<Object>, k: nat) returns (i: nat)
    requires Table(objs, raw) && k < |objs|
    ensures i < |raw| && Marked(raw)[i] == objs[k]
  {
    hide Marked, Unmarked, Names;
    assert objs[k] in multiset(objs);
    assert objs[k] in multiset(Marked(raw));
    i :| 0 <= i < |raw| && Marked(raw)[i] == objs[k];
  }

  lemma AllInTable(objs: seq<Object>, raw: seq<Object>, i: nat) returns (k: nat)
    requires Table(objs, raw) && i < |raw|
    ensures k < |objs| && Marked(raw)[i] == objs[k]
  {
    hide Marked, Unmarked, Names;
    assert Marked(raw)[i] in multiset(Marked(raw));
    assert Marked(raw)[i] in multiset(objs);
    k :| 0 <= k < |objs| && Marked(raw)[i] == objs[k];
  }

  /** Whichever entry of a name the search hits: it is marked exactly when the scope declares the name twice, and
      otherwise it is the one declaration. */
  lemma HitMeans(objs: seq<Object>, raw: seq<Object>, k: nat)
    requires Table(objs, raw) && k < |objs|
    ensures var first := First(raw, objs[k].name.text, 0);
      && first.Some?
      && (objs[k].kind.Duplicate? <==> Repeated(raw, first.value))
      && (!objs[k].kind.Duplicate? ==> objs[k] == raw[first.value])
  {
    var i := InTable(objs, raw, k);
    var first := First(raw, objs[k].name.text, 0);
    assert raw[i].name.text == objs[k].name.text;
    if first.value != i {
      assert Repeated(raw, i) && Repeated(raw, first.value);
    }
  }

  lemma MissMeans(objs: seq<Object>, raw: seq<Object>, text: string)
    requires Table(objs, raw) && text !in Names(objs)
    ensures First(raw, text, 0).None?
  {
    var first := First(raw, text, 0);
    if first.Some? {
      var k := AllInTable(objs, raw, first.value);
    }
  }

  /** scope_find_object: binary search in the sorted tables answers as the linear search through the declarations. */
  method FindObject(scope: Scope, use: Symbol, ghost raws: seq<seq<Object>>) returns (found: Option<Object>)
    requires Built(scope, raws)
    ensures found == Lookup(raws, use)
  {
    hide Table, First, Repeated, Names, Sorted;
    var s, more := scope, true;
    ghost var rest := raws;
    while more
      invariant more ==> Built(s, rest)
      invariant Lookup(raws, use) == if more then Lookup(rest, use) else None
      decreases more, s
    {
      TableSorted(s.objs, rest[0]);
      var hit := Search(Names(s.objs), use.text);
      if hit.Some? {
        var o := s.objs[hit.value];
        HitMeans(s.objs, rest[0], hit.value);
        if !o.kind.Duplicate? {
          if o.kind.Automatic? {
            return if use.at > o.kind.first then Some(o) else None;
          } else {
            return Some(o);
          }
        }
      } else {
        MissMeans(s.objs, rest[0], use.text);
      }
      rest := rest[1..];
      if s.outer.Some? {
        s := s.outer.value;
      } else {
        more := false;
      }
    }
    return None;
  }

  lemma TableSorted(objs: seq<Object>, raw: seq<Object>)
    requires Table(objs, raw)
    ensures Sorted(Names(objs)) && |Names(objs)| == |objs|
    ensures forall k :: 0 <= k < |objs| ==> Names(objs)[k] == objs[k].name.text
  {
  }

  // ---------- wait labels ----------

  /** A wait label of a function; the same name may occur several times. */
  datatype Wlab = Wlab(name: string, id: nat)

  function LabelNames(labs: seq<Wlab>): (ns: seq<string>)
    ensures |ns| == |labs| && forall k :: 0 <= k < |labs| ==> ns[k] == labs[k].name
  {
    seq(|labs|, k requires 0 <= k < |labs| => labs[k].name)
  }

  function Below(names: seq<string>, name: string): set<string> {
    set n | n in names && Before(n, name)
  }

  /** The id of a name: one more than the number of different names before it. */
  function Number(names: seq<string>, name: string): (id: nat)
    ensures id > 0
  {
    1 + |Below(names, name)|
  }

  lemma BelowGrows(names: seq<string>, a: string, b: string)
    requires a in names && Before(a, b)
    ensures Number(names, a) < Number(names, b)
  {
    BeforeIsTotal(a, a);
    forall n | n in Below(names, a) ensures n in Below(names, b) {
      BeforeIsTransitive(n, a, b);
    }
    SmallerSet(Below(names, a), Below(names, b), a);
  }

  lemma SmallerSet(s: set<string>, t: set<string>, x: string)
    requires s <= t && x in t && x !in s
    ensures |s| < |t|
  {
    SubsetSize(s, t - {x});
  }

  lemma {:induction false} SubsetSize(s: set<string>, t: set<string>)
    requires s <= t
    ensures |s| <= |t|
    decreases s
  {
    if s != {} {
      var x :| x in s;
      SubsetSize(s - {x}, t - {x});
    }
  }

  /** Two labels of a function have the same id exactly when they have the same name. */
  lemma NumberIdentifies(names: seq<string>, a: string, b: string)
    requires a in names && b in names
    ensures Number(names, a) == Number(names, b) <==> a == b
  {
    BeforeIsTotal(a, b);
    if Before(a, b) {
      BelowGrows(names, a, b);
    } else if Before(b, a) {
      BelowGrows(names, b, a);
    }
  }

  /** The ids do not depend on how qsort orders equal names, or on the order of the labels at all. */
  lemma NumberUnordered(names: seq<string>, sorted: seq<string>, name: string)
    requires multiset(names) == multiset(sorted)
    ensures Number(names, name) == Number(sorted, name) && (name in names <==> name in sorted)
  {
    forall n ensures n in names <==> n in sorted {
      assert n in names <==> n in multiset(names);
      assert n in sorted <==> n in multiset(sorted);
    }
    assert Below(names, name) == Below(sorted, name);
  }

  function Elements(names: seq<string>): set<string> {
    set n | n in names
  }

  /** When a name begins in the sorted labels, the names before it are those passed so far. */
  lemma GroupStart(names: seq<string>, idx: nat)
    requires Sorted(names) && idx < |names| && names[idx] !in names[..idx]
    ensures Below(names, names[idx]) == Elements(names[..idx])
  {
    forall n | n in Below(names, names[idx]) ensures n in names[..idx] {
      var k :| 0 <= k < |names| && names[k] == n;
      if k >= idx {
        BeforeIsTotal(names[k], names[k]);
      }
      assert names[..idx][k] == n;
    }
    forall n | n in names[..idx] ensures n in Below(names, names[idx]) {
      var k :| 0 <= k < idx && names[..idx][k] == n;
      BeforeIsTotal(names[k], names[idx]);
    }
  }

  /** After a name's last label, the next one differs from all passed. */
  lemma GroupEnd(names: seq<string>, idx: nat)
    requires Sorted(names) && 0 < idx < |names| && names[idx] != names[idx - 1]
    ensures names[idx] !in names[..idx]
  {
    if names[idx] in names[..idx] {
      var k :| 0 <= k < idx && names[..idx][k] == names[idx];
      BeforeIsTotal(names[idx], names[idx - 1]);
    }
  }

  lemma OneMoreName(names: seq<string>, i: nat, j: nat)
    requires i < j <= |names| && names[i] !in names[..i] && forall k :: i <= k < j ==> names[k] == names[i]
    ensures Elements(names[..j]) == Elements(names[..i]) + {names[i]}
    ensures |Elements(names[..j])| == |Elements(names[..i])| + 1
  {
    forall n ensures n in names[..j] <==> n in names[..i] || n == names[i] {
      if n in names[..j] {
        var k :| 0 <= k < j && names[..j][k] == n;
        assert k < i ==> names[..i][k] == n;
      }
      if n in names[..i] {
        var k :| 0 <= k < i && names[..i][k] == n;
        assert names[..j][k] == n;
      }
      assert names[..j][i] == names[i];
    }
  }

  lemma NoElements(names: seq<string>)
    ensures |Elements(names[..0])| == 0
  {
  }

  lemma NumberIs(names: seq<string>, name: string, id: nat)
    requires id == 1 + |Below(names, name)|
    ensures Number(names, name) == id
  {
  }

  /** identify_wlabs, on the sorted labels: the names are kept, and each gets the id of its name. */
  method IdentifyWlabs(labs: array<Wlab>)
    requires Sorted(LabelNames(labs[..]))
    modifies labs
    ensures LabelNames(labs[..]) == old(LabelNames(labs[..]))
    ensures forall k :: 0 <= k < labs.Length ==> labs[k].id == Number(LabelNames(labs[..]), labs[k].name)
  {
    hide Sorted, Before, Number, Below, Elements, LabelNames;
    ghost var names := LabelNames(labs[..]);
    NoElements(names);
    var id, idx := 1, 0;
    while idx < labs.Length
      invariant 0 <= idx <= labs.Length && id == 1 + |Elements(names[..idx])|
      invariant idx < labs.Length ==> names[idx] !in names[..idx]
      invariant forall k :: 0 <= k < labs.Length ==> labs[k].name == names[k]
      invariant forall k :: 0 <= k < idx ==> labs[k].id == Number(names, names[k])
      decreases labs.Length - idx
    {
      ghost var start := idx;
      var outer := labs[idx].name;
      GroupStart(names, idx);
      NumberIs(names, outer, id);
      labs[idx] := labs[idx].(id := id);
      idx := idx + 1;
      while idx < labs.Length && outer == labs[idx].name
        invariant start < idx <= labs.Length && outer == names[start]
        invariant forall k :: 0 <= k < labs.Length ==> labs[k].name == names[k]
        invariant forall k :: start <= k < idx ==> names[k] == outer
        invariant forall k :: 0 <= k < idx ==> labs[k].id == Number(names, names[k])
      {
        labs[idx] := labs[idx].(id := id);
        idx := idx + 1;
      }
      OneMoreName(names, start, idx);
      if idx < labs.Length {
        GroupEnd(names, idx);
      }
      id := id + 1;
    }
    assert LabelNames(labs[..]) == names;
  }

  /** A function's labels after identify_wlabs. */
  predicate Identified(labs: seq<Wlab>, raw: seq<string>) {
    && multiset(LabelNames(labs)) == multiset(raw) && Sorted(LabelNames(labs))
    && forall k :: 0 <= k < |labs| ==> labs[k].id == Number(LabelNames(labs), labs[k].name)
  }

  /** What a label of a function is known by in WLAB, WAIT and QAT. */
  function LabelOf(func: nat, raw: seq<string>, name: string): Label {
    Label(func, Number(raw, name))
  }

  /** scope_find_wlab and the id found there, or nothing when the function has no such label. */
  method FindWlab(func: nat, labs: seq<Wlab>, name: string, ghost raw: seq<string>) returns (lab: Option<Label>)
    requires Identified(labs, raw)
    ensures lab == if name in raw then Some(LabelOf(func, raw, name)) else None
  {
    var hit := Search(LabelNames(labs), name);
    NumberUnordered(raw, LabelNames(labs), name);
    lab := if hit.Some? then Some(Label(func, labs[hit.value].id)) else None;
  }

  /** A wait until a label, or a test of it, answers to a WLAB exactly when the function and the label's name agree.
      A function is known by the address of its record, which is neither 0 nor 1: so no label is taken for the start
      or the end of a quaint, for no label at all, or for what a machine has passed before its first label. */
  lemma LabelIdentity(tables: map<nat, seq<string>>, f: nat, a: string, g: nat, b: string)
    requires f in tables && g in tables && a in tables[f] && b in tables[g]
    requires f >= 2 && g >= 2
    ensures LabelOf(f, tables[f], a) == LabelOf(g, tables[g], b) <==> f == g && a == b
    ensures var lab := LabelOf(f, tables[f], a);
      lab.func != 0 && lab.func != 1 && lab.id != 0 && lab != Label(0, 0)
  {
    if f == g {
      NumberIdentifies(tables[f], a, b);
    }
  }
}
