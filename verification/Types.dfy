/** Types as values: the sizes, alignments and offsets that type_quantify computes, structural equality, and what
    they promise about every scalar reachable inside a value. */
module Types {
  import opened Options
  import opened Words
  import Layout

  /** A type and how many elements of it there are; the count is 1 unless it is an array. */
  datatype Type = Type(count: nat, shape: Shape)

  datatype Shape =
    | Void
    | Integer(ty: Ty)
    | Enum(under: Ty, values: seq<Value>)
    | Pointer(to: Type)
    | VoidPointer
    | FuncPointer(params: seq<Member>, ret: Option<Type>)
    | Quaint(of: Type)
    | Struct(members: seq<Member>)
    | Union(members: seq<Member>)

  datatype Member = Member(name: string, ty: Type)

  datatype Value = Value(name: string, value: nat)

  predicate IsRecord(t: Type) {
    t.shape.Struct? || t.shape.Union?
  }

  /** What type_quantify needs: a struct or union has members, and none of them is void. */
  predicate Complete(t: Type)
    decreases t
  {
    IsRecord(t) ==>
      && t.shape.members != []
      && forall k :: 0 <= k < |t.shape.members| ==> !t.shape.members[k].ty.shape.Void? && Complete(t.shape.members[k].ty)
  }

  predicate CompleteMembers(ms: seq<Member>) {
    ms != [] && forall k :: 0 <= k < |ms| ==> !ms[k].ty.shape.Void? && Complete(ms[k].ty)
  }

  // ---------- layout ----------

  function Align(t: Type): (a: nat)
    requires Complete(t)
    ensures !t.shape.Void? ==> IsWord(a)
    decreases t, 0
  {
    match t.shape
    case Void => 0
    case Integer(ty) => ty.Size()
    case Enum(under, _) => under.Size()
    case Struct(ms) => Greatest(ms)
    case Union(ms) => Greatest(ms)
    case _ => 8
  }

  /** The greatest alignment among the members. */
  function Greatest(ms: seq<Member>): (a: nat)
    requires CompleteMembers(ms)
    ensures IsWord(a)
    ensures forall k :: 0 <= k < |ms| ==> Align(ms[k].ty) <= a
    ensures exists k :: 0 <= k < |ms| && Align(ms[k].ty) == a
    decreases ms, |ms|
  {
    var n := |ms| - 1;
    var last := Align(ms[n].ty);
    if n == 0 then last
    else
      var before := Greatest(ms[..n]);
      assert forall k :: 0 <= k < n ==> ms[..n][k] == ms[k];
      if last > before then last else before
  }

  /** The bytes of one element. */
  function Size(t: Type): (s: nat)
    requires Complete(t)
    decreases t, 2, 0
  {
    match t.shape
    case Void => 0
    case Integer(ty) => ty.Size()
    case Enum(under, _) => under.Size()
    case Struct(ms) => Layout.AlignUp(End(ms, |ms|), Greatest(ms))
    case Union(ms) => Largest(ms)
    case _ => 8
  }

  /** The bytes of all elements. */
  function Extent(t: Type): nat
    requires Complete(t)
    decreases t, 3, 0
  {
    Size(t) * t.count
  }

  /** Where the first k members of a struct end. */
  function End(ms: seq<Member>, k: nat): nat
    requires CompleteMembers(ms) && k <= |ms|
    decreases ms, 1, k
  {
    if k == 0 then 0 else Layout.AlignUp(End(ms, k - 1), Align(ms[k - 1].ty)) + Extent(ms[k - 1].ty)
  }

  function Offset(ms: seq<Member>, k: nat): nat
    requires CompleteMembers(ms) && k < |ms|
    decreases ms, 1, k
  {
    Layout.AlignUp(End(ms, k), Align(ms[k].ty))
  }

  /** The greatest extent among the members. */
  function Largest(ms: seq<Member>): (s: nat)
    requires CompleteMembers(ms)
    ensures forall k :: 0 <= k < |ms| ==> Extent(ms[k].ty) <= s
    ensures exists k :: 0 <= k < |ms| && Extent(ms[k].ty) == s
    decreases ms, 1, |ms|
  {
    var n := |ms| - 1;
    var last := Extent(ms[n].ty);
    if n == 0 then last
    else
      var before := Largest(ms[..n]);
      assert forall k :: 0 <= k < n ==> ms[..n][k] == ms[k];
      if last > before then last else before
  }

  // ---------- arithmetic of words ----------

  predicate Divides(a: nat, x: nat) {
    a > 0 && x % a == 0
  }

  lemma WordDivides(a: nat, b: nat, x: nat)
    requires IsWord(a) && IsWord(b) && a <= b && Divides(b, x)
    ensures Divides(a, x)
  {
    var d, q := b / a, x / b;
    WordQuotient(a, b);
    assert x == b * q;
    Reassociate(a, d, q);
    ModUniqueInt(x, a, d * q, 0);
  }

  lemma WordQuotient(a: nat, b: nat)
    requires IsWord(a) && IsWord(b) && a <= b
    ensures b == a * (b / a)
  {
  }

  lemma Reassociate(a: nat, d: nat, q: nat)
    ensures a * d * q == a * (d * q)
  {
  }

  lemma WordMultiple(a: nat, s: nat, i: nat)
    requires Divides(a, s)
    ensures Divides(a, i * s)
  {
    var q := s / a;
    assert i * s == a * (i * q);
    ModUniqueInt(i * s, a, i * q, 0);
  }

  lemma WordSum(a: nat, x: nat, y: nat)
    requires Divides(a, x)
    ensures Divides(a, x + y) <==> Divides(a, y)
  {
    var q, d, r := x / a, y / a, y % a;
    assert x == a * q && y == a * d + r;
    Distribute(a, q, d);
    ModUniqueInt(x + y, a, q + d, r);
  }

  lemma Distribute(a: nat, q: nat, d: nat)
    ensures a * (q + d) == a * q + a * d
  {
  }

  // ---------- one struct ----------

  lemma OffsetBounds(ms: seq<Member>, k: nat)
    requires CompleteMembers(ms) && k < |ms|
    ensures End(ms, k) <= Offset(ms, k) && Divides(Align(ms[k].ty), Offset(ms, k)) && Align(ms[k].ty) <= Greatest(ms)
    ensures End(ms, k + 1) == Offset(ms, k) + Extent(ms[k].ty)
  {
    hide Align, Extent, Greatest;
  }

  lemma {:induction false} EndGrows(ms: seq<Member>, j: nat, k: nat)
    requires CompleteMembers(ms) && j <= k <= |ms|
    ensures End(ms, j) <= End(ms, k)
    decreases k - j
  {
    hide *;
    if j < k {
      OffsetBounds(ms, k - 1);
      EndGrows(ms, j, k - 1);
    }
  }

  /** The offset is the first aligned place after the members before. */
  lemma FirstAligned(ms: seq<Member>, k: nat, off: nat)
    requires CompleteMembers(ms) && k < |ms| && End(ms, k) <= off && Divides(Align(ms[k].ty), off)
    ensures Offset(ms, k) <= off
  {
    hide Align, End;
    if off < Offset(ms, k) {
      Layout.AlignUpUnique(End(ms, k), Align(ms[k].ty), off);
    }
  }

  lemma StructEnd(t: Type)
    requires Complete(t) && t.shape.Struct?
    ensures var ms := t.shape.members;
      && CompleteMembers(ms) && Align(t) == Greatest(ms) && IsWord(Align(t))
      && Divides(Align(t), Size(t)) && End(ms, |ms|) <= Size(t) < End(ms, |ms|) + Align(t)
  {
    hide End, Greatest;
  }

  /** The members of a struct lie in order, without overlap, aligned, and inside it; none could start earlier; and
      the struct ends at a multiple of its alignment, with no more padding than that takes.  Unions among the
      members make no difference. */
  lemma StructLayout(t: Type, j: nat, k: nat)
    requires Complete(t) && t.shape.Struct? && j <= k < |t.shape.members|
    ensures CompleteMembers(t.shape.members)
    ensures var ms := t.shape.members;
      && IsWord(Align(t)) && Divides(Align(t), Size(t)) && Align(ms[k].ty) <= Align(t)
      && Divides(Align(ms[k].ty), Offset(ms, k))
      && (j < k ==> Offset(ms, j) + Extent(ms[j].ty) <= Offset(ms, k))
      && Offset(ms, k) + Extent(ms[k].ty) <= Size(t) < End(ms, |ms|) + Align(t)
    ensures var ms := t.shape.members;
      forall off: nat :: End(ms, k) <= off && Divides(Align(ms[k].ty), off) ==> Offset(ms, k) <= off
  {
    hide *;
    StructEnd(t);
    MemberComplete(t, k);
    var ms := t.shape.members;
    OffsetBounds(ms, k);
    EndGrows(ms, k + 1, |ms|);
    if j < k {
      OffsetBounds(ms, j);
      EndGrows(ms, j + 1, k);
    }
    forall off: nat | End(ms, k) <= off && Divides(Align(ms[k].ty), off) ensures Offset(ms, k) <= off {
      FirstAligned(ms, k, off);
    }
  }

  /** A size is a multiple of its alignment, but for unions: exactly when their largest extent is. */
  lemma SizeMultiple(t: Type)
    requires Complete(t) && !t.shape.Void?
    ensures IsRecord(t) ==> CompleteMembers(t.shape.members)
    ensures Divides(Align(t), Size(t)) <==> (t.shape.Union? ==> Divides(Greatest(t.shape.members), Largest(t.shape.members)))
  {
    hide End, Greatest, Largest;
  }

  // ---------- the scalars inside a value ----------

  /** A way to one scalar: an element of the array, and in a struct or union a member and a way from there. */
  datatype Path = Element(i: nat) | Field(i: nat, k: nat, rest: Path)

  predicate Reaches(t: Type, p: Path)
    requires Complete(t)
    decreases p
  {
    match p
    case Element(i) => i < t.count && !IsRecord(t)
    case Field(i, k, rest) => i < t.count && IsRecord(t) && k < |t.shape.members| && Reaches(t.shape.members[k].ty, rest)
  }

  function MemberAt(t: Type, k: nat): nat
    requires Complete(t) && IsRecord(t) && k < |t.shape.members|
  {
    if t.shape.Struct? then Offset(t.shape.members, k) else 0
  }

  function Scaled(i: nat, s: nat): nat {
    i * s
  }

  /** Where element i of the array begins. */
  function ElementAt(t: Type, i: nat): nat
    requires Complete(t)
  {
    Scaled(i, Size(t))
  }

  /** The distance of the scalar from the start of the value. */
  function Place(t: Type, p: Path): nat
    requires Complete(t) && Reaches(t, p)
    decreases p
  {
    match p
    case Element(i) => ElementAt(t, i)
    case Field(i, k, rest) => ElementAt(t, i) + (MemberAt(t, k) + Place(t.shape.members[k].ty, rest))
  }

  function Width(t: Type, p: Path): nat
    requires Complete(t) && Reaches(t, p)
    decreases p
  {
    match p
    case Element(i) => Size(t)
    case Field(i, k, rest) => Width(t.shape.members[k].ty, rest)
  }

  lemma ElementsApart(i: nat, j: nat, s: nat, n: nat)
    requires i < j < n
    ensures i * s + s <= j * s && j * s + s <= n * s
  {
    MulMonoInt(s, i + 1, j);
    MulMonoInt(s, j + 1, n);
    assert (i + 1) * s == i * s + s && (j + 1) * s == j * s + s;
  }

  lemma ElementInside(i: nat, s: nat, n: nat)
    requires i < n
    ensures i * s + s <= n * s
  {
    MulMonoInt(s, i + 1, n);
    assert (i + 1) * s == i * s + s;
  }

  lemma UnionMember(t: Type, k: nat)
    requires Complete(t) && t.shape.Union? && k < |t.shape.members|
    ensures var m := t.shape.members[k].ty;
      Complete(m) && Extent(m) <= Size(t) && MemberAt(t, k) == 0 && Align(m) <= Align(t)
  {
    hide Extent, End;
    assert CompleteMembers(t.shape.members);
  }

  lemma MemberComplete(t: Type, k: nat)
    requires Complete(t) && IsRecord(t) && k < |t.shape.members|
    ensures CompleteMembers(t.shape.members)
    ensures var m := t.shape.members[k].ty; !m.shape.Void? && Complete(m) && IsWord(Align(m)) && IsWord(Align(t))
    ensures t.shape.Struct? ==> MemberAt(t, k) == Offset(t.shape.members, k)
    ensures !t.shape.Void? && (t.shape.Struct? || t.shape.Union?)
  {
  }

  lemma ZeroDivides(a: nat)
    requires IsWord(a)
    ensures Divides(a, 0)
  {
  }

  /** A member of a struct or union begins at a multiple of its alignment, which divides the whole's, and lies in it. */
  lemma MemberFits(t: Type, k: nat)
    requires Complete(t) && IsRecord(t) && k < |t.shape.members|
    ensures var m := t.shape.members[k].ty;
      && !m.shape.Void? && Complete(m) && IsWord(Align(m)) && IsWord(Align(t)) && Align(m) <= Align(t)
      && Divides(Align(m), MemberAt(t, k)) && MemberAt(t, k) + Extent(m) <= Size(t)
  {
    hide *;
    MemberComplete(t, k);
    if t.shape.Struct? {
      StructLayout(t, k, k);
    } else {
      UnionMember(t, k);
      ZeroDivides(Align(t.shape.members[k].ty));
    }
  }

  /** Every scalar lies inside the value, and is as wide as some alignment that divides the whole's. */
  lemma {:induction false} InBounds(t: Type, p: Path)
    requires Complete(t) && Reaches(t, p) && !t.shape.Void?
    ensures Place(t, p) + Width(t, p) <= Extent(t)
    ensures IsWord(Width(t, p)) && IsWord(Align(t)) && Width(t, p) <= Align(t)
    decreases p
  {
    hide Align, Size, MemberAt;
    match p
    case Element(i) =>
      ElementInside(i, Size(t), t.count);
      ScalarAlign(t);
    case Field(i, k, rest) =>
      MemberFits(t, k);
      InBounds(t.shape.members[k].ty, rest);
      ElementInside(i, Size(t), t.count);
  }

  lemma ScalarAlign(t: Type)
    requires Complete(t) && !IsRecord(t) && !t.shape.Void?
    ensures Size(t) == Align(t) && IsWord(Align(t))
  {
  }

  /** The ways part where a member of a union is chosen. */
  predicate PartAtUnion(t: Type, p: Path, q: Path)
    requires Complete(t) && Reaches(t, p) && Reaches(t, q)
    decreases p
  {
    p.Field? && q.Field? && p.i == q.i &&
    if p.k == q.k then PartAtUnion(t.shape.members[p.k].ty, p.rest, q.rest) else t.shape.Union?
  }

  predicate Apart(a: nat, m: nat, b: nat, n: nat) {
    a + m <= b || b + n <= a
  }

  lemma WithinElement(t: Type, p: Path)
    requires Complete(t) && Reaches(t, p) && !t.shape.Void?
    ensures p.i < t.count && ElementAt(t, p.i) <= Place(t, p) && Place(t, p) + Width(t, p) <= ElementAt(t, p.i) + Size(t)
  {
    hide Align, Size, MemberAt;
    if p.Field? {
      MemberFits(t, p.k);
      InBounds(t.shape.members[p.k].ty, p.rest);
    }
  }

  /** Two different scalars share no byte, unless the ways to them part at a union. */
  lemma {:induction false} ScalarsApart(t: Type, p: Path, q: Path)
    requires Complete(t) && Reaches(t, p) && Reaches(t, q) && !t.shape.Void?
    requires p != q && !PartAtUnion(t, p, q)
    ensures Apart(Place(t, p), Width(t, p), Place(t, q), Width(t, q))
    decreases p
  {
    hide Align, Size, Extent, Offset, End;
    WithinElement(t, p);
    WithinElement(t, q);
    if p.i < q.i {
      ElementsApart(p.i, q.i, Size(t), t.count);
    } else if q.i < p.i {
      ElementsApart(q.i, p.i, Size(t), t.count);
    } else if p.k == q.k {
      MemberFits(t, p.k);
      ScalarsApart(t.shape.members[p.k].ty, p.rest, q.rest);
    } else {
      MembersApart(t, p, q);
    }
  }

  lemma MembersApart(t: Type, p: Path, q: Path)
    requires Complete(t) && Reaches(t, p) && Reaches(t, q) && t.shape.Struct? && p.i == q.i && p.k != q.k
    ensures Apart(Place(t, p), Width(t, p), Place(t, q), Width(t, q))
  {
    hide Align, Size, Extent, Offset, End;
    var ms := t.shape.members;
    MemberFits(t, p.k);
    MemberFits(t, q.k);
    InBounds(ms[p.k].ty, p.rest);
    InBounds(ms[q.k].ty, q.rest);
    if p.k < q.k {
      StructLayout(t, p.k, q.k);
    } else {
      StructLayout(t, q.k, p.k);
    }
  }

  // ---------- alignment ----------

  /** An array of two or more unions whose size is not a multiple of their alignment occurs in the type. */
  predicate Ragged(t: Type)
    requires Complete(t)
    decreases t
  {
    IsRecord(t) &&
      ((t.count > 1 && t.shape.Union? && !Divides(Greatest(t.shape.members), Largest(t.shape.members)))
       || exists k :: 0 <= k < |t.shape.members| && Ragged(t.shape.members[k].ty))
  }

  /** No array is empty. */
  predicate Populated(t: Type)
    decreases t
  {
    t.count > 0 && (IsRecord(t) ==> forall k :: 0 <= k < |t.shape.members| ==> Populated(t.shape.members[k].ty))
  }

  /** The elements of an array that is not ragged are aligned. */
  lemma ElementAligned(t: Type, i: nat, base: nat)
    requires Complete(t) && !t.shape.Void? && !Ragged(t) && i < t.count && Divides(Align(t), base)
    ensures Divides(Align(t), base + ElementAt(t, i))
  {
    hide *;
    FirstElement(t);
    if i > 0 {
      EvenSize(t);
      ElementDivided(t, i);
      WordSum(Align(t), base, ElementAt(t, i));
    }
  }

  lemma FirstElement(t: Type)
    requires Complete(t)
    ensures ElementAt(t, 0) == 0
  {
    hide Size;
  }

  lemma ElementDivided(t: Type, i: nat)
    requires Complete(t) && Divides(Align(t), Size(t))
    ensures Divides(Align(t), ElementAt(t, i))
  {
    hide Size, Align, Divides;
    WordMultiple(Align(t), Size(t), i);
  }

  lemma EvenSize(t: Type)
    requires Complete(t) && !t.shape.Void? && !Ragged(t) && t.count > 1
    ensures Divides(Align(t), Size(t))
  {
    hide Align, Size, Largest, Greatest;
    SizeMultiple(t);
  }

  lemma MemberEven(t: Type, k: nat)
    requires Complete(t) && IsRecord(t) && k < |t.shape.members| && !Ragged(t)
    ensures Complete(t.shape.members[k].ty) && !Ragged(t.shape.members[k].ty)
  {
  }

  lemma FieldPlace(t: Type, p: Path)
    requires Complete(t) && Reaches(t, p) && p.Field?
    ensures IsRecord(t) && p.k < |t.shape.members| && p.i < t.count
    ensures var m := t.shape.members[p.k].ty;
      && Complete(m) && Reaches(m, p.rest) && Width(t, p) == Width(m, p.rest)
      && Place(t, p) == ElementAt(t, p.i) + (MemberAt(t, p.k) + Place(m, p.rest))
  {
    hide Size, MemberAt;
  }

  lemma ElementPlace(t: Type, p: Path)
    requires Complete(t) && Reaches(t, p) && p.Element? && !t.shape.Void?
    ensures Place(t, p) == ElementAt(t, p.i) && Width(t, p) == Align(t) && p.i < t.count
  {
    hide Size, Align;
    ScalarAlign(t);
  }

  lemma {:induction false} AlignedIfEven(t: Type, p: Path, base: nat)
    requires Complete(t) && !t.shape.Void? && !Ragged(t) && Reaches(t, p) && Divides(Align(t), base)
    ensures Divides(Width(t, p), base + Place(t, p))
    decreases p
  {
    hide *;
    if p.Element? {
      ElementPlace(t, p);
      ElementAligned(t, p.i, base);
    } else {
      FieldPlace(t, p);
      ElementAligned(t, p.i, base);
      MemberComplete(t, p.k);
      MemberFits(t, p.k);
      MemberEven(t, p.k);
      var start, m, at := base + ElementAt(t, p.i), t.shape.members[p.k].ty, MemberAt(t, p.k);
      WordDivides(Align(m), Align(t), start);
      WordSum(Align(m), start, at);
      AlignedIfEven(m, p.rest, start + at);
      assert base + Place(t, p) == start + at + Place(m, p.rest);
    }
  }

  /** In the first element there is a scalar as wide as the alignment. */
  lemma {:induction false} Widest(t: Type) returns (p: Path)
    requires Complete(t) && !t.shape.Void? && Populated(t)
    ensures Reaches(t, p) && Width(t, p) == Align(t) && p.i == 0
    decreases t
  {
    hide Size, Extent, Offset, End, Largest, Place;
    if IsRecord(t) {
      var k :| 0 <= k < |t.shape.members| && Align(t.shape.members[k].ty) == Greatest(t.shape.members);
      var q := Widest(t.shape.members[k].ty);
      p := Field(0, k, q);
    } else {
      p := Element(0);
      ScalarAlign(t);
    }
  }

  function Second(p: Path): Path {
    if p.Element? then Element(1) else Field(1, p.k, p.rest)
  }

  lemma SecondPlace(t: Type, p: Path)
    requires Complete(t) && Reaches(t, p) && p.i == 0 && t.count > 1
    ensures Reaches(t, Second(p)) && Place(t, Second(p)) == Size(t) + Place(t, p) && Width(t, Second(p)) == Width(t, p)
  {
    hide Size, MemberAt;
  }

  /** In an array of ragged unions the widest scalar of the first or of the second one is misaligned. */
  lemma RaggedElements(t: Type, base: nat) returns (p: Path)
    requires Complete(t) && !t.shape.Void? && Populated(t) && t.count > 1 && !Divides(Align(t), Size(t))
    ensures Reaches(t, p) && !Divides(Width(t, p), base + Place(t, p))
  {
    hide *;
    p := Widest(t);
    if Divides(Width(t, p), base + Place(t, p)) {
      SecondPlace(t, p);
      WordSum(Align(t), base + Place(t, p), Size(t));
      assert base + Place(t, Second(p)) == base + Place(t, p) + Size(t);
      p := Second(p);
    }
  }

  /** Where the raggedness is: here, or in a member. */
  lemma RaggedWhere(t: Type) returns (here: bool, k: nat)
    requires Complete(t) && Populated(t) && Ragged(t)
    ensures !t.shape.Void? && t.count > 0
    ensures here ==> t.count > 1 && !Divides(Align(t), Size(t))
    ensures !here ==> IsRecord(t) && k < |t.shape.members|
    ensures !here ==> Complete(t.shape.members[k].ty) && Ragged(t.shape.members[k].ty) && Populated(t.shape.members[k].ty)
  {
    hide Align, Size, Largest, Greatest;
    SizeMultiple(t);
    here, k := t.count > 1 && !Divides(Align(t), Size(t)), 0;
    if !here {
      k :| 0 <= k < |t.shape.members| && Ragged(t.shape.members[k].ty);
    }
  }

  /** In a ragged type some scalar is misaligned, wherever the value begins at a multiple of its alignment. */
  lemma {:induction false} MisalignedIfRagged(t: Type, base: nat) returns (p: Path)
    requires Complete(t) && !t.shape.Void? && Populated(t) && Ragged(t) && Divides(Align(t), base)
    ensures Reaches(t, p) && !Divides(Width(t, p), base + Place(t, p))
    decreases t
  {
    hide *;
    var here, k := RaggedWhere(t);
    if here {
      p := RaggedElements(t, base);
    } else {
      MemberComplete(t, k);
      MemberFits(t, k);
      var m, at := t.shape.members[k].ty, MemberAt(t, k);
      WordDivides(Align(m), Align(t), base);
      WordSum(Align(m), base, at);
      var q := MisalignedIfRagged(m, base + at);
      p := Field(0, k, q);
      FirstField(t, k, q);
      assert base + Place(t, p) == base + at + Place(m, q);
    }
  }

  lemma FirstField(t: Type, k: nat, q: Path)
    requires Complete(t) && IsRecord(t) && t.count > 0 && k < |t.shape.members| && Reaches(t.shape.members[k].ty, q)
    ensures var p, m := Field(0, k, q), t.shape.members[k].ty;
      Reaches(t, p) && Place(t, p) == MemberAt(t, k) + Place(m, q) && Width(t, p) == Width(m, q)
  {
    hide Size, MemberAt;
    assert 0 * Size(t) == 0;
  }

  /** When every scalar in a value of the type, put at an address its alignment divides, is at an address its own
      width divides: exactly when no array of ragged unions occurs in it. */
  lemma AlignedExactly(t: Type, base: nat)
    requires Complete(t) && !t.shape.Void? && Populated(t) && Divides(Align(t), base)
    ensures (forall p: Path :: Reaches(t, p) ==> Divides(Width(t, p), base + Place(t, p))) <==> !Ragged(t)
  {
    hide *;
    if Ragged(t) {
      var p := MisalignedIfRagged(t, base);
      assert Reaches(t, p);
    } else {
      forall p: Path | Reaches(t, p)
        ensures Divides(Width(t, p), base + Place(t, p)) {
        AlignedIfEven(t, p, base);
      }
    }
  }

  /** Such an array exists: two unions of a four-byte word and five bytes. */
  lemma RaggedArray() returns (t: Type, p: Path)
    ensures Complete(t) && Reaches(t, p) && !Divides(Width(t, p), Place(t, p))
  {
    var word, bytes := Type(1, Integer(U32)), Type(5, Integer(U8));
    var ms := [Member("w", word), Member("b", bytes)];
    t, p := Type(2, Union(ms)), Field(1, 0, Element(0));
    assert Complete(t) && CompleteMembers(ms);
    assert Extent(word) == 4 && Extent(bytes) == 5;
    assert Size(t) == 5;
    assert Place(word, Element(0)) == 0 && Width(word, Element(0)) == 4;
    hide Size;
    assert MemberAt(t, 0) == 0;
    assert Place(t, p) == 1 * Size(t) + (MemberAt(t, 0) + Place(word, Element(0))) == 5;
  }

  // ---------- equality ----------

  /** type_equals */
  predicate EqualTypes(a: Type, b: Type)
    decreases a
  {
    a.count == b.count &&
    match a.shape
    case Pointer(x) => b.shape.Pointer? && EqualTypes(x, b.shape.to)
    case Quaint(x) => b.shape.Quaint? && EqualTypes(x, b.shape.of)
    case Struct(ms) => b.shape.Struct? && AllEqual(ms, b.shape.members)
    case Union(ms) => b.shape.Union? && AllEqual(ms, b.shape.members)
    case FuncPointer(ps, ret) =>
      && b.shape.FuncPointer? && AllEqual(ps, b.shape.params)
      && ret.Some? == b.shape.ret.Some?
      && (ret.Some? ==> EqualTypes(ret.value, b.shape.ret.value))
    case _ => a.shape == b.shape
  }

  predicate AllEqual(ms: seq<Member>, ns: seq<Member>)
    decreases ms
  {
    |ms| == |ns| && forall k :: 0 <= k < |ms| ==> EqualTypes(ms[k].ty, ns[k].ty)
  }

  /** The type without the names of members and parameters. */
  function Erased(t: Type): Type
    decreases t
  {
    Type(t.count,
      match t.shape
      case Pointer(x) => Pointer(Erased(x))
      case Quaint(x) => Quaint(Erased(x))
      case Struct(ms) => Struct(ErasedAll(ms))
      case Union(ms) => Union(ErasedAll(ms))
      case FuncPointer(ps, ret) => FuncPointer(ErasedAll(ps), if ret.Some? then Some(Erased(ret.value)) else None)
      case _ => t.shape)
  }

  function ErasedAll(ms: seq<Member>): (es: seq<Member>)
    ensures |es| == |ms|
    decreases ms
  {
    seq(|ms|, k requires 0 <= k < |ms| => Member("", Erased(ms[k].ty)))
  }

  /** type_equals decides equality but for the names of members and parameters; so it is an equivalence. */
  lemma {:induction false} EqualsExactly(a: Type, b: Type)
    ensures EqualTypes(a, b) <==> Erased(a) == Erased(b)
    decreases a
  {
    match a.shape
    case Pointer(x) =>
      if b.shape.Pointer? {
        EqualsExactly(x, b.shape.to);
      }
    case Quaint(x) =>
      if b.shape.Quaint? {
        EqualsExactly(x, b.shape.of);
      }
    case Struct(ms) =>
      if b.shape.Struct? {
        AllEqualExactly(ms, b.shape.members);
      }
    case Union(ms) =>
      if b.shape.Union? {
        AllEqualExactly(ms, b.shape.members);
      }
    case FuncPointer(ps, ret) =>
      if b.shape.FuncPointer? {
        AllEqualExactly(ps, b.shape.params);
        if ret.Some? && b.shape.ret.Some? {
          EqualsExactly(ret.value, b.shape.ret.value);
        }
      }
    case _ =>
  }

  lemma {:induction false} AllEqualExactly(ms: seq<Member>, ns: seq<Member>)
    ensures AllEqual(ms, ns) <==> ErasedAll(ms) == ErasedAll(ns)
    decreases ms
  {
    hide EqualTypes, Erased;
    if |ms| == |ns| {
      forall k | 0 <= k < |ms|
        ensures EqualTypes(ms[k].ty, ns[k].ty) <==> ErasedAll(ms)[k] == ErasedAll(ns)[k] {
        EqualsExactly(ms[k].ty, ns[k].ty);
      }
    }
  }

  lemma EqualIsEquivalence(a: Type, b: Type, c: Type)
    ensures EqualTypes(a, a)
    ensures EqualTypes(a, b) ==> EqualTypes(b, a)
    ensures EqualTypes(a, b) && EqualTypes(b, c) ==> EqualTypes(a, c)
  {
    hide EqualTypes, Erased;
    EqualsExactly(a, a);
    EqualsExactly(a, b);
    EqualsExactly(b, a);
    EqualsExactly(b, c);
    EqualsExactly(a, c);
  }

  // ---------- equal types are laid out alike ----------

  predicate SameLayout(a: Type, b: Type) {
    && Complete(a) && Complete(b) && a.count == b.count && a.shape.Void? == b.shape.Void?
    && Align(a) == Align(b) && Size(a) == Size(b) && Extent(a) == Extent(b)
  }

  predicate SameLayouts(ms: seq<Member>, ns: seq<Member>) {
    |ms| == |ns| && forall k :: 0 <= k < |ms| ==> SameLayout(ms[k].ty, ns[k].ty)
  }

  lemma PrefixLayouts(ms: seq<Member>, ns: seq<Member>, n: nat)
    requires CompleteMembers(ms) && CompleteMembers(ns) && SameLayouts(ms, ns) && 0 < n <= |ms|
    ensures CompleteMembers(ms[..n]) && CompleteMembers(ns[..n]) && SameLayouts(ms[..n], ns[..n])
  {
    hide Complete, SameLayout;
    assert forall k :: 0 <= k < n ==> ms[..n][k] == ms[k] && ns[..n][k] == ns[k];
  }

  lemma {:induction false} SameGreatest(ms: seq<Member>, ns: seq<Member>)
    requires CompleteMembers(ms) && CompleteMembers(ns) && SameLayouts(ms, ns)
    ensures Greatest(ms) == Greatest(ns)
    decreases |ms|
  {
    hide Align, Size, Extent, Complete;
    var n := |ms| - 1;
    if n > 0 {
      PrefixLayouts(ms, ns, n);
      SameGreatest(ms[..n], ns[..n]);
    }
  }

  lemma {:induction false} SameLargest(ms: seq<Member>, ns: seq<Member>)
    requires CompleteMembers(ms) && CompleteMembers(ns) && SameLayouts(ms, ns)
    ensures Largest(ms) == Largest(ns)
    decreases |ms|
  {
    hide Align, Size, Extent, Complete;
    var n := |ms| - 1;
    if n > 0 {
      PrefixLayouts(ms, ns, n);
      SameLargest(ms[..n], ns[..n]);
    }
  }

  lemma {:induction false} SameEnd(ms: seq<Member>, ns: seq<Member>, k: nat)
    requires CompleteMembers(ms) && CompleteMembers(ns) && SameLayouts(ms, ns) && k <= |ms|
    ensures End(ms, k) == End(ns, k)
    ensures k < |ms| ==> Offset(ms, k) == Offset(ns, k)
  {
    hide Align, Size, Extent, Complete;
    if k > 0 {
      SameEnd(ms, ns, k - 1);
    }
  }

  /** Layout is determined by structure: equal types have the same size, alignment and extent, and equal structs the
      same offsets. */
  lemma {:induction false} EqualLayout(a: Type, b: Type)
    requires Complete(a) && EqualTypes(a, b)
    ensures SameLayout(a, b)
    ensures a.shape.Struct? ==> b.shape.Struct? && |a.shape.members| == |b.shape.members|
    ensures a.shape.Struct? ==> forall k :: 0 <= k < |a.shape.members| ==> MemberAt(a, k) == MemberAt(b, k)
    decreases a
  {
    hide EqualTypes;
    EqualShapes(a, b);
    if IsRecord(a) {
      var ms, ns := a.shape.members, b.shape.members;
      forall k | 0 <= k < |ms| ensures SameLayout(ms[k].ty, ns[k].ty) {
        EqualLayout(ms[k].ty, ns[k].ty);
      }
      EqualRecords(a, b);
    } else {
      assert Align(a) == Align(b);
    }
  }

  lemma EqualShapes(a: Type, b: Type)
    requires EqualTypes(a, b)
    ensures a.count == b.count && a.shape.Void? == b.shape.Void?
    ensures a.shape.Struct? == b.shape.Struct? && a.shape.Union? == b.shape.Union?
    ensures IsRecord(a) ==> |a.shape.members| == |b.shape.members|
    ensures IsRecord(a) ==> forall k :: 0 <= k < |a.shape.members| ==> EqualTypes(a.shape.members[k].ty, b.shape.members[k].ty)
    ensures !IsRecord(a) && Complete(a) ==> Complete(b) && Align(a) == Align(b) && Size(a) == Size(b)
  {
  }

  lemma EqualRecords(a: Type, b: Type)
    requires Complete(a) && IsRecord(a) && IsRecord(b) && a.shape.Struct? == b.shape.Struct? && a.count == b.count
    requires SameLayouts(a.shape.members, b.shape.members)
    ensures SameLayout(a, b)
    ensures forall k :: 0 <= k < |a.shape.members| ==> MemberAt(a, k) == MemberAt(b, k)
  {
    var ms, ns := a.shape.members, b.shape.members;
    RecordComplete(a);
    SameComplete(a, b);
    hide *;
    SameGreatest(ms, ns);
    SameLargest(ms, ns);
    SameEnd(ms, ns, |ms|);
    RecordLayout(a);
    RecordLayout(b);
    RecordsAlike(a, b);
    forall k | 0 <= k < |ms| ensures MemberAt(a, k) == MemberAt(b, k) {
      SameEnd(ms, ns, k);
      RecordMember(a, k);
      RecordMember(b, k);
    }
  }

  lemma RecordComplete(t: Type)
    requires IsRecord(t)
    ensures Complete(t) <==> CompleteMembers(t.shape.members)
  {
  }

  lemma SameComplete(a: Type, b: Type)
    requires IsRecord(a) && IsRecord(b) && CompleteMembers(a.shape.members) && SameLayouts(a.shape.members, b.shape.members)
    ensures CompleteMembers(b.shape.members) && Complete(b) && |a.shape.members| == |b.shape.members|
  {
    hide Align, Size, Extent;
  }

  lemma RecordLayout(t: Type)
    requires Complete(t) && IsRecord(t)
    ensures CompleteMembers(t.shape.members) && Align(t) == Greatest(t.shape.members)
    ensures Size(t) == if t.shape.Struct? then Layout.AlignUp(End(t.shape.members, |t.shape.members|), Align(t))
                       else Largest(t.shape.members)
  {
    hide Greatest, Largest, End;
  }

  lemma RecordsAlike(a: Type, b: Type)
    requires Complete(a) && Complete(b) && IsRecord(a) && IsRecord(b) && a.count == b.count
    requires Align(a) == Align(b) && Size(a) == Size(b)
    ensures SameLayout(a, b)
  {
    hide Align, Size;
  }

  lemma RecordMember(t: Type, k: nat)
    requires Complete(t) && IsRecord(t) && k < |t.shape.members|
    ensures CompleteMembers(t.shape.members)
    ensures MemberAt(t, k) == if t.shape.Struct? then Offset(t.shape.members, k) else 0
  {
  }

  /** And every scalar inside is at the same place, with the same width. */
  lemma {:induction false} EqualPlaces(a: Type, b: Type, p: Path)
    requires Complete(a) && EqualTypes(a, b)
    ensures Complete(b) && (Reaches(a, p) <==> Reaches(b, p))
    ensures Reaches(a, p) ==> Place(a, p) == Place(b, p) && Width(a, p) == Width(b, p)
    decreases p
  {
    hide EqualTypes, Align, Size, Extent, MemberAt;
    EqualLayout(a, b);
    EqualShapes(a, b);
    if IsRecord(a) && p.Field? && p.k < |a.shape.members| {
      EqualPlaces(a.shape.members[p.k].ty, b.shape.members[p.k].ty, p.rest);
      if a.shape.Union? {
        UnionMember(a, p.k);
        UnionMember(b, p.k);
      }
    }
  }
}
