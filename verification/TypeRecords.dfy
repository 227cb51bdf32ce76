/** The type records as the compiler keeps them: sizes and offsets are filled in place, copies are built record by
    record, and two records are compared member by member. */
module TypeRecords {
  import opened Options
  import opened Words
  import opened Types
  import Layout

  datatype Tag = TVoid | TInt(ty: Ty) | TEnum | TPtr | TVptr | TFptr | TQuaint | TStruct | TUnion

  class TypeRecord {
    var t: Tag
    var count: nat
    var size: nat
    var alignment: nat
    /** What a pointer points to, or a quaint yields. */
    var subtype: TypeRecord?
    /** The members of a struct or union, or the parameters of a function pointer. */
    var names: seq<string>
    var members: seq<TypeRecord>
    var offsets: seq<nat>
    var rettype: TypeRecord?
    var under: Ty
    var values: seq<Value>
    /** The type the record stands for, and the records it is made of. */
    ghost var model: Type
    ghost var repr: set<object>

    /** A record straight from calloc. */
    constructor ()
      ensures Zeroed() && t == TVoid && count == 0 && repr == {this}
    {
      t, count, size, alignment, subtype := TVoid, 0, 0, 0, null;
      names, members, offsets, rettype := [], [], [], null;
      under, values := U8, [];
      model, repr := Type(0, Void), {this};
    }

    ghost predicate Zeroed()
      reads this
    {
      && size == 0 && alignment == 0 && offsets == [] && names == [] && members == []
      && subtype == null && rettype == null
    }

    /** A record of its own, made of other records than this one. */
    ghost predicate Owns(c: TypeRecord?, m: Type)
      reads this, repr
    {
      this in repr && c != null && c in repr && c.repr <= repr && this !in c.repr && c.model == m
    }

    ghost predicate OwnsAll(ms: seq<Member>)
      reads this, repr
    {
      && |names| == |members| == |ms|
      && (forall k :: 0 <= k < |ms| ==> names[k] == ms[k].name)
      && (forall k :: 0 <= k < |members| ==> Owns(members[k], ms[k].ty))
      && (forall j, k :: 0 <= j < k < |members| ==> members[j].repr !! members[k].repr)
    }

    ghost predicate Valid()
      reads this, repr
      decreases repr
    {
      && this in repr && t == TagOf(model.shape) && count == model.count
      && OwnsAll(Parts(model)) && (forall k :: 0 <= k < |members| ==> members[k].Valid())
      && (model.shape.Enum? ==> under == model.shape.under && values == model.shape.values)
      && (model.shape.Pointer? ==> Owns(subtype, model.shape.to) && subtype.Valid())
      && (model.shape.Quaint? ==> Owns(subtype, model.shape.of) && subtype.Valid())
      && (model.shape.FuncPointer? ==>
            if model.shape.ret.Some? then Owns(rettype, model.shape.ret.value) && rettype.Valid() else rettype == null)
    }

    /** Not quantified yet, nor any member. */
    ghost predicate Blank()
      requires Valid()
      reads this, repr
      decreases repr
    {
      && size == 0 && alignment == 0 && offsets == []
      && (IsRecord(model) ==> forall k :: 0 <= k < |members| ==> members[k].Blank())
    }

    /** Quantified, with every member: the layout of the type the record stands for. */
    ghost predicate Done()
      requires Valid()
      reads this, repr
      decreases repr
    {
      && Complete(model) && size == Size(model) && alignment == Align(model)
      && (IsRecord(model) ==>
            && |offsets| == |members|
            && (forall k :: 0 <= k < |members| ==> offsets[k] == MemberAt(model, k))
            && (forall k :: 0 <= k < |members| ==> members[k].Done()))
    }

    /** type_copy onto a record straight from calloc: a record of the same type that shares nothing with the source
        and is not quantified, even if the source is. */
    method CopyFrom(src: TypeRecord)
      requires src.Valid() && this !in src.repr && Zeroed()
      modifies this
      ensures Valid() && Blank() && model == src.model && fresh(repr - {this})
      decreases src.model, 2
    {
      hide Valid, Blank, Halfway, Parts, Owns, OwnsAll, TagOf;
      ValidHasSelf(src);
      SourceParts(src);
      TagTells(src.model.shape);
      t, count := src.t, src.count;
      model, repr := src.model, {this};
      match t {
      case TPtr | TQuaint =>
        CopySubtype(src);
      case TStruct | TUnion =>
        CopyMembers(src);
        Copied(this);
      case TFptr =>
        CopyFunction(src);
      case TEnum =>
        under := src.under;
        CopyValues(src);
        NoMembers(repr - {this});
        Copied(this);
      case TVoid | TVptr =>
        NoMembers(repr - {this});
        Copied(this);
      case TInt(_) =>
        NoMembers(repr - {this});
        Copied(this);
      }
    }

    /** The part of a copy that the tag and the count have been set for. */
    ghost predicate Begun(src: TypeRecord)
      reads this, src
    {
      && Zeroed() && repr == {this} && model == src.model && t == src.t && count == src.count
    }

    method CopySubtype(src: TypeRecord)
      requires src.Valid() && this !in src.repr && Begun(src) && (t.TPtr? || t.TQuaint?)
      modifies this`subtype, this`repr
      ensures Valid() && Blank() && fresh(repr - {this})
      decreases src.model, 1
    {
      hide Valid, Blank, Halfway, Parts, TagOf;
      ValidHasSelf(src);
      SourceParts(src);
      TagTells(model.shape);
      subtype := CopyOf(src.subtype);
      repr := repr + subtype.repr;
      NoMembers(repr - {this});
      Copied(this);
    }

    method CopyFunction(src: TypeRecord)
      requires src.Valid() && this !in src.repr && Begun(src) && t.TFptr?
      modifies this`rettype, this`names, this`members, this`repr
      ensures Valid() && Blank() && fresh(repr - {this})
      decreases src.model, 1
    {
      hide Valid, Blank, Halfway, Parts, TagOf;
      ValidHasSelf(src);
      SourceParts(src);
      TagTells(model.shape);
      if src.rettype != null {
        rettype := CopyOf(src.rettype);
        repr := repr + rettype.repr;
      }
      CopyMembers(src);
      Copied(this);
    }

    method CopyValues(src: TypeRecord)
      requires this != src
      modifies this`values
      ensures values == src.values
    {
      values := [];
      var idx := 0;
      while idx < |src.values|
        invariant 0 <= idx <= |src.values| && values == src.values[..idx]
      {
        values := values + [src.values[idx]];
        idx := idx + 1;
      }
    }

    /** type_alloc and type_copy */
    static method CopyOf(src: TypeRecord) returns (c: TypeRecord)
      requires src.Valid()
      ensures c.Valid() && c.Blank() && c.model == src.model && fresh(c.repr) && c in c.repr
      decreases src.model, 3
    {
      hide TypeRecord.Valid, TypeRecord.Blank;
      c := new TypeRecord();
      c.CopyFrom(src);
      ValidHasSelf(c);
    }

    /** The loop over members or parameters. */
    method CopyMembers(src: TypeRecord)
      requires src.Valid() && this !in src.repr && names == [] && members == [] && this in repr
      modifies this`names, this`members, this`repr
      ensures |names| == |members| == |Parts(src.model)| && old(repr) <= repr && fresh(repr - old(repr))
      ensures forall k :: 0 <= k < |names| ==> names[k] == Parts(src.model)[k].name
      ensures Halfway(repr - {this}, members, Parts(src.model), 0)
      decreases src.model, 0
    {
      hide Valid, Blank, Halfway, Parts;
      ghost var ms := Parts(src.model);
      ghost var inner := {};
      SourceParts(src);
      NoMembers({});
      var idx := 0;
      while idx < |src.members|
        invariant 0 <= idx <= |src.members| && |names| == |members| == idx
        invariant repr == old(repr) + inner && fresh(inner) && this !in inner
        invariant forall k :: 0 <= k < idx ==> names[k] == ms[k].name
        invariant Halfway(inner, members, ms[..idx], 0)
      {
        SourceMember(src, idx);
        var c := CopyOf(src.members[idx]);
        OneMore(inner, members, ms[..idx], c, ms[idx]);
        assert ms[..idx + 1] == ms[..idx] + [ms[idx]];
        names := names + [src.names[idx]];
        members := members + [c];
        inner := inner + c.repr;
        repr := repr + c.repr;
        idx := idx + 1;
      }
      assert ms[..idx] == ms;
      Wider(inner, repr - {this}, members, ms);
    }

    /** type_quantify */
    method Quantify()
      requires Valid() && Blank() && Complete(model)
      modifies repr
      ensures model == old(model) && repr == old(repr) && Valid() && Done()
      decreases repr
    {
      match t
      case TVoid =>
      case TInt(ty) =>
        size, alignment := ty.Size(), ty.Size();
      case TEnum =>
        size, alignment := under.Size(), under.Size();
      case TPtr | TVptr | TFptr | TQuaint =>
        size, alignment := 8, 8;
      case TStruct =>
        QuantifyStruct();
      case TUnion =>
        QuantifyUnion();
    }

    /** One turn of the loop over the members. */
    method QuantifyMember(idx: nat)
      requires this in repr && idx < |members| && CompleteMembers(Parts(model)) && Halfway(repr - {this}, members, Parts(model), idx)
      modifies members[idx].repr
      ensures this !in members[idx].repr && members[idx].repr == old(members[idx].repr)
      ensures Halfway(repr - {this}, members, Parts(model), idx + 1)
      ensures var m := Parts(model)[idx].ty;
        members[idx].count == m.count && members[idx].size == Size(m) && members[idx].alignment == Align(m)
      decreases repr, 0
    {
      hide Complete, Align, Size;
      members[idx].Quantify();
    }

    method QuantifyStruct()
      requires Valid() && Blank() && Complete(model) && t.TStruct?
      modifies repr
      ensures model == old(model) && repr == old(repr) && Valid() && Done()
      decreases repr, 1
    {
      hide TypeRecord.Valid, TypeRecord.Blank, TypeRecord.Done, Halfway, Complete, CompleteMembers;
      hide Align, Size, End, Offset, GreatestTo, LargestTo, Parts;
      ghost var ms := Parts(model);
      BeginRecord(this);
      StartsAtZero(ms);
      offsets := seq(|members|, _ => 0);
      var idx, current, greatest := 0, 0, 0;
      while idx < |members|
        invariant 0 <= idx <= |members| && |offsets| == |members|
        invariant model == old(model) && repr == old(repr) && members == old(members)
        invariant Outline(this) && Halfway(repr - {this}, members, ms, idx)
        invariant forall k :: 0 <= k < idx ==> offsets[k] == Offset(ms, k)
        invariant current == End(ms, idx) && greatest == GreatestTo(ms, idx)
      {
        MemberInside(repr - {this}, members, ms, idx);
        QuantifyMember(idx);
        var bytes := members[idx].size * members[idx].count;
        if members[idx].alignment > greatest {
          greatest := members[idx].alignment;
        }
        GreatestStep(ms, idx);
        EndStep(ms, idx);
        current := Layout.AlignUp(current, members[idx].alignment);
        offsets := offsets[idx := current];
        current := current + bytes;
        idx := idx + 1;
      }
      RecordTotals(model);
      current := Layout.AlignUp(current, greatest);
      size := current;
      alignment := greatest;
      FinishRecord(this);
    }

    method QuantifyUnion()
      requires Valid() && Blank() && Complete(model) && t.TUnion?
      modifies repr
      ensures model == old(model) && repr == old(repr) && Valid() && Done()
      decreases repr, 1
    {
      hide TypeRecord.Valid, TypeRecord.Blank, TypeRecord.Done, Halfway, Complete, CompleteMembers;
      hide Align, Size, End, Offset, GreatestTo, LargestTo, Parts;
      ghost var ms := Parts(model);
      BeginRecord(this);
      StartsAtZero(ms);
      offsets := seq(|members|, _ => 0);
      var idx, largest, greatest := 0, 0, 0;
      while idx < |members|
        invariant 0 <= idx <= |members| && |offsets| == |members| && forall k :: 0 <= k < |members| ==> offsets[k] == 0
        invariant model == old(model) && repr == old(repr) && members == old(members)
        invariant Outline(this) && Halfway(repr - {this}, members, ms, idx)
        invariant largest == LargestTo(ms, idx) && greatest == GreatestTo(ms, idx)
      {
        MemberInside(repr - {this}, members, ms, idx);
        QuantifyMember(idx);
        var bytes := members[idx].size * members[idx].count;
        if bytes > largest {
          largest := bytes;
        }
        if members[idx].alignment > greatest {
          greatest := members[idx].alignment;
        }
        GreatestStep(ms, idx);
        LargestStep(ms, idx);
        idx := idx + 1;
      }
      RecordTotals(model);
      size := largest;
      alignment := greatest;
      FinishRecord(this);
    }

    /** type_equals */
    method Equals(o: TypeRecord) returns (same: bool)
      requires Valid() && o.Valid()
      ensures same == EqualTypes(model, o.model)
      decreases model
    {
      if t != o.t || count != o.count {
        return false;
      }
      match t
      case TPtr | TQuaint =>
        same := subtype.Equals(o.subtype);
      case TStruct | TUnion =>
        same := MembersEqual(o);
      case TFptr =>
        same := MembersEqual(o);
        if !same {
          return false;
        }
        if rettype == null && o.rettype == null {
          return true;
        } else if rettype != null && o.rettype != null {
          same := rettype.Equals(o.rettype);
        } else {
          return false;
        }
      case TEnum =>
        same := EnumEqual(o);
      case TVoid | TVptr =>
        same := true;
      case TInt(_) =>
        same := true;
    }

    /** The loop over members or parameters. */
    method MembersEqual(o: TypeRecord) returns (same: bool)
      requires Valid() && o.Valid() && t == o.t && (t.TStruct? || t.TUnion? || t.TFptr?)
      ensures same == AllEqual(Parts(model), Parts(o.model))
      decreases model, 0
    {
      ghost var ms, ns := Parts(model), Parts(o.model);
      if |members| != |o.members| {
        return false;
      }
      var idx := 0;
      while idx < |members|
        invariant 0 <= idx <= |members|
        invariant forall k :: 0 <= k < idx ==> EqualTypes(ms[k].ty, ns[k].ty)
      {
        var equal := members[idx].Equals(o.members[idx]);
        if !equal {
          return false;
        }
        idx := idx + 1;
      }
      return true;
    }

    method EnumEqual(o: TypeRecord) returns (same: bool)
      ensures same <==> under == o.under && values == o.values
    {
      if |values| != |o.values| || under != o.under {
        return false;
      }
      var idx := 0;
      while idx < |values|
        invariant 0 <= idx <= |values| && values[..idx] == o.values[..idx]
      {
        if values[idx].name != o.values[idx].name {
          return false;
        }
        if values[idx].value != o.values[idx].value {
          return false;
        }
        idx := idx + 1;
      }
      return true;
    }
  }

  /** The members of a struct or union, the parameters of a function pointer. */
  function Parts(t: Type): seq<Member> {
    match t.shape
    case Struct(ms) => ms
    case Union(ms) => ms
    case FuncPointer(ps, _) => ps
    case _ => []
  }

  function TagOf(s: Shape): Tag {
    match s
    case Void => TVoid
    case Integer(ty) => TInt(ty)
    case Enum(_, _) => TEnum
    case Pointer(_) => TPtr
    case VoidPointer => TVptr
    case FuncPointer(_, _) => TFptr
    case Quaint(_) => TQuaint
    case Struct(_) => TStruct
    case Union(_) => TUnion
  }

  /** The greatest alignment among the first k members. */
  function GreatestTo(ms: seq<Member>, k: nat): nat
    requires CompleteMembers(ms) && k <= |ms|
  {
    if k == 0 then 0 else Greatest(ms[..k])
  }

  lemma GreatestStep(ms: seq<Member>, k: nat)
    requires CompleteMembers(ms) && k < |ms|
    ensures GreatestTo(ms, k + 1) == if Align(ms[k].ty) > GreatestTo(ms, k) then Align(ms[k].ty) else GreatestTo(ms, k)
  {
    hide Align;
    assert ms[..k + 1][..k] == ms[..k];
  }

  /** The greatest extent among the first k members. */
  function LargestTo(ms: seq<Member>, k: nat): nat
    requires CompleteMembers(ms) && k <= |ms|
  {
    if k == 0 then 0 else Largest(ms[..k])
  }

  lemma LargestStep(ms: seq<Member>, k: nat)
    requires CompleteMembers(ms) && k < |ms|
    ensures LargestTo(ms, k + 1) == if Extent(ms[k].ty) > LargestTo(ms, k) then Extent(ms[k].ty) else LargestTo(ms, k)
  {
    hide Extent;
    assert ms[..k + 1][..k] == ms[..k];
  }

  /** Records of the given members' types, sharing nothing, the first ones quantified and the others not. */
  ghost predicate Halfway(rest: set<object>, members: seq<TypeRecord>, ms: seq<Member>, done: nat)
    reads rest
  {
    && |members| == |ms| && done <= |ms|
    && (forall k :: 0 <= k < |members| ==>
          members[k] in rest && members[k].repr <= rest && members[k].model == ms[k].ty && members[k].Valid())
    && (forall j, k :: 0 <= j < k < |members| ==> members[j].repr !! members[k].repr)
    && (forall k :: 0 <= k < done ==> members[k].Done())
    && (forall k :: done <= k < |members| ==> members[k].Blank())
  }

  lemma ValidHasSelf(r: TypeRecord)
    requires r.Valid()
    ensures r in r.repr
  {
  }

  /** What a valid record says of its parts. */
  lemma SourceParts(r: TypeRecord)
    requires r.Valid()
    ensures r.t == TagOf(r.model.shape) && r.count == r.model.count && |r.names| == |r.members| == |Parts(r.model)|
    ensures r.model.shape.Enum? ==> r.under == r.model.shape.under && r.values == r.model.shape.values
    ensures r.model.shape.Pointer? ==> r.subtype != null && r.subtype.Valid() && r.subtype.model == r.model.shape.to
    ensures r.model.shape.Quaint? ==> r.subtype != null && r.subtype.Valid() && r.subtype.model == r.model.shape.of
    ensures r.model.shape.FuncPointer? ==> (r.rettype == null <==> r.model.shape.ret.None?)
    ensures r.model.shape.FuncPointer? && r.rettype != null ==>
      r.rettype.Valid() && r.rettype.model == r.model.shape.ret.value
    ensures !(IsRecord(r.model) || r.model.shape.FuncPointer?) ==> Parts(r.model) == []
  {
  }

  lemma SourceMember(r: TypeRecord, k: nat)
    requires r.Valid() && k < |r.members|
    ensures |r.members| == |Parts(r.model)| == |r.names| && r.names[k] == Parts(r.model)[k].name
    ensures r.members[k].Valid() && r.members[k].model == Parts(r.model)[k].ty && r.members[k].model < r.model
  {
  }

  lemma TagTells(s: Shape)
    ensures TagOf(s).TVoid? == s.Void? && TagOf(s).TEnum? == s.Enum? && TagOf(s).TPtr? == s.Pointer?
    ensures TagOf(s).TQuaint? == s.Quaint? && TagOf(s).TFptr? == s.FuncPointer? && TagOf(s).TVptr? == s.VoidPointer?
    ensures TagOf(s).TStruct? == s.Struct? && TagOf(s).TUnion? == s.Union? && TagOf(s).TInt? == s.Integer?
  {
  }

  lemma NoMembers(rest: set<object>)
    ensures Halfway(rest, [], [], 0)
  {
  }

  lemma OneMore(rest: set<object>, members: seq<TypeRecord>, ms: seq<Member>, c: TypeRecord, m: Member)
    requires Halfway(rest, members, ms, 0) && c in c.repr && c.Valid() && c.Blank() && c.model == m.ty && c.repr !! rest
    ensures Halfway(rest + c.repr, members + [c], ms + [m], 0)
  {
    hide TypeRecord.Valid, TypeRecord.Blank, TypeRecord.Done;
  }

  lemma Wider(small: set<object>, large: set<object>, members: seq<TypeRecord>, ms: seq<Member>)
    requires Halfway(small, members, ms, 0) && small <= large
    ensures Halfway(large, members, ms, 0)
  {
    hide TypeRecord.Valid, TypeRecord.Blank, TypeRecord.Done;
  }

  /** The fields of a finished copy. */
  lemma Copied(r: TypeRecord)
    requires r in r.repr && r.t == TagOf(r.model.shape) && r.count == r.model.count
    requires Halfway(r.repr - {r}, r.members, Parts(r.model), 0) && |r.names| == |r.members|
    requires forall k :: 0 <= k < |r.names| ==> k < |Parts(r.model)| && r.names[k] == Parts(r.model)[k].name
    requires r.model.shape.Enum? ==> r.under == r.model.shape.under && r.values == r.model.shape.values
    requires r.model.shape.Pointer? ==> r.Owns(r.subtype, r.model.shape.to) && r.subtype.Valid()
    requires r.model.shape.Quaint? ==> r.Owns(r.subtype, r.model.shape.of) && r.subtype.Valid()
    requires r.model.shape.FuncPointer? ==> (r.rettype == null <==> r.model.shape.ret.None?)
    requires r.model.shape.FuncPointer? && r.rettype != null ==>
      r.Owns(r.rettype, r.model.shape.ret.value) && r.rettype.Valid()
    requires r.size == 0 && r.alignment == 0 && r.offsets == []
    ensures r.Valid() && r.Blank()
  {
    hide TypeRecord.Done;
  }

  lemma MemberInside(rest: set<object>, members: seq<TypeRecord>, ms: seq<Member>, k: nat)
    requires Halfway(rest, members, ms, k) && k < |members|
    ensures members[k] in rest && members[k].repr <= rest
  {
  }

  /** What a struct's or union's record says but for its layout. */
  ghost predicate Outline(r: TypeRecord)
    reads r
  {
    && r in r.repr && r.t == TagOf(r.model.shape) && r.count == r.model.count && IsRecord(r.model)
    && |r.names| == |r.members| == |Parts(r.model)|
    && forall k :: 0 <= k < |r.names| ==> r.names[k] == Parts(r.model)[k].name
  }

  lemma BeginRecord(r: TypeRecord)
    requires r.Valid() && r.Blank() && Complete(r.model) && (r.t.TStruct? || r.t.TUnion?)
    ensures IsRecord(r.model) && r.model.shape.Struct? == r.t.TStruct? && Parts(r.model) == r.model.shape.members
    ensures Outline(r) && CompleteMembers(Parts(r.model)) && Halfway(r.repr - {r}, r.members, Parts(r.model), 0)
    ensures r in r.repr && |r.members| == |Parts(r.model)|
  {
    hide TypeRecord.Done;
  }

  lemma FinishRecord(r: TypeRecord)
    requires Outline(r) && Complete(r.model) && Halfway(r.repr - {r}, r.members, Parts(r.model), |r.members|)
    requires r.size == Size(r.model) && r.alignment == Align(r.model) && |r.offsets| == |r.members| == |Parts(r.model)|
    requires IsRecord(r.model) && Parts(r.model) == r.model.shape.members && CompleteMembers(r.model.shape.members)
    requires forall k :: 0 <= k < |r.members| ==>
      r.offsets[k] == if r.model.shape.Struct? then Offset(Parts(r.model), k) else 0
    ensures r.Valid() && r.Done()
  {
    hide Complete, Align, Size, TypeRecord.Blank;
  }

  lemma StartsAtZero(ms: seq<Member>)
    requires CompleteMembers(ms)
    ensures End(ms, 0) == 0 && GreatestTo(ms, 0) == 0 && LargestTo(ms, 0) == 0
  {
  }

  lemma EndStep(ms: seq<Member>, k: nat)
    requires CompleteMembers(ms) && k < |ms|
    ensures Align(ms[k].ty) > 0 && Offset(ms, k) == Layout.AlignUp(End(ms, k), Align(ms[k].ty))
    ensures End(ms, k + 1) == Offset(ms, k) + Extent(ms[k].ty)
  {
    hide Align, Extent;
  }

  /** What the loops have added up in the end. */
  lemma RecordTotals(t: Type)
    requires Complete(t) && IsRecord(t)
    ensures var ms := t.shape.members;
      && CompleteMembers(ms) && Align(t) == GreatestTo(ms, |ms|) && Align(t) > 0
      && Size(t) == if t.shape.Struct? then Layout.AlignUp(End(ms, |ms|), Align(t)) else LargestTo(ms, |ms|)
  {
    hide Greatest, Largest, End;
    var ms := t.shape.members;
    assert ms[..|ms|] == ms;
  }

  /** Two quantified records that type_equals finds equal have the same layout; so has a quantified copy. */
  lemma EqualRecordsAgree(a: TypeRecord, b: TypeRecord)
    requires a.Valid() && b.Valid() && a.Done() && b.Done() && EqualTypes(a.model, b.model)
    ensures a.size == b.size && a.alignment == b.alignment && a.count == b.count
    ensures a.t.TStruct? ==> a.offsets == b.offsets
  {
    hide EqualTypes, Complete, Align, Size, MemberAt;
    EqualLayout(a.model, b.model);
    EqualShapes(a.model, b.model);
  }
}
