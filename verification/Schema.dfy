/** CloudNativePG's ClusterSpec type as reflection shows it, and which JSON trees it can hold. */
module Schema {
  import opened Wrappers
  import opened JsonTree
  import opened Text

  /** A Go type, finite. `custom` marks a struct with its own JSON form, a scalar, such as
      resource.Quantity: reflection still sees a struct. */
  datatype Ty =
    | Struct(name: string, fields: seq<Field>, custom: bool)
    | MapOf(elem: Ty)
    | Slice(elem: Ty)
    | Pointer(elem: Ty)
    | Basic

  /** tag is what the json tag says before its first comma. */
  datatype Field = Field(name: string, tag: string, anonymous: bool, ty: Ty)

  /** Looks through pointers and slices. */
  function ElemType(t: Ty): (e: Ty)
    ensures !e.Pointer? && !e.Slice?
  {
    match t
    case Pointer(e) => ElemType(e)
    case Slice(e) => ElemType(e)
    case _ => t
  }

  function ThroughPointers(t: Ty): Ty {
    match t
    case Pointer(e) => ThroughPointers(e)
    case _ => t
  }

  /** The loop of fieldByJSONName from field i on, descending into embedded structs. */
  function FieldFrom(t: Ty, name: string, i: nat): (r: Option<Ty>)
    requires t.Struct? && i <= |t.fields|
    decreases t, |t.fields| - i
  {
    if i == |t.fields| then None
    else
      var f := t.fields[i];
      if f.tag == name then Some(f.ty)
      else if f.tag == "" && f.anonymous && f.ty.Struct? && FieldFrom(f.ty, name, 0).Some? then FieldFrom(f.ty, name, 0)
      else FieldFrom(t, name, i + 1)
  }

  function FieldByJSONName(t: Ty, name: string): Option<Ty>
    requires t.Struct?
  {
    FieldFrom(t, name, 0)
  }

  /** A field of this JSON name stands in the struct or in one it embeds. */
  ghost predicate HasField(t: Ty, name: string, ty: Ty)
    requires t.Struct?
    decreases t
  {
    exists i :: 0 <= i < |t.fields| &&
      ((t.fields[i].tag == name && t.fields[i].ty == ty) ||
       (t.fields[i].tag == "" && t.fields[i].anonymous && t.fields[i].ty.Struct? && HasField(t.fields[i].ty, name, ty)))
  }

  /** fieldByJSONName finds a name exactly when some field carries it, and returns its type. */
  lemma {:induction false} FieldLookup(t: Ty, name: string, i: nat)
    requires t.Struct? && i <= |t.fields|
    ensures FieldFrom(t, name, i).Some? ==> HasField(t, name, FieldFrom(t, name, i).value)
    ensures i == 0 && FieldFrom(t, name, i).None? ==> forall ty :: !HasField(t, name, ty)
    ensures FieldFrom(t, name, i).None? ==> forall j :: i <= j < |t.fields| ==>
              t.fields[j].tag != name &&
              (t.fields[j].tag == "" && t.fields[j].anonymous && t.fields[j].ty.Struct? ==>
                 forall ty :: !HasField(t.fields[j].ty, name, ty))
    decreases t, |t.fields| - i
  {
    if i < |t.fields| {
      var f := t.fields[i];
      if f.tag == "" && f.anonymous && f.ty.Struct? {
        FieldLookup(f.ty, name, 0);
      }
      FieldLookup(t, name, i + 1);
    }
  }

  /** What encoding/json calls a field it does not inline. */
  function JSONName(f: Field): string {
    if f.tag != "" then f.tag else f.name
  }

  /** The struct whose fields it inlines: embedded by value or by pointer, and not named by a tag. */
  function Inlined(f: Field): Option<Ty> {
    if f.tag != "" || !f.anonymous then None
    else if f.ty.Struct? then Some(f.ty)
    else if f.ty.Pointer? && f.ty.elem.Struct? then Some(f.ty.elem)
    else None
  }

  /** encoding/json may write a field of this name and type; of several it picks by depth. */
  ghost predicate Encodes(t: Ty, name: string, ty: Ty)
    requires t.Struct?
    decreases t
  {
    exists i :: 0 <= i < |t.fields| &&
      if Inlined(t.fields[i]).Some? then Encodes(Inlined(t.fields[i]).value, name, ty)
      else JSONName(t.fields[i]) == name && t.fields[i].ty == ty
  }

  /** Nothing encoding/json writes is hidden from fieldByJSONName: fields are tagged, or structs
      embedded by value, and no name stands for two types. A custom form hides what is in it. */
  ghost predicate Transparent(t: Ty)
    decreases t
  {
    match t
    case Struct(_, fields, custom) => custom ||
      (&& (forall f | f in fields :: Transparent(f.ty) && (f.tag == "" ==> f.anonymous && f.ty.Struct? && !f.ty.custom))
       && (forall name, a, b :: Encodes(t, name, a) && Encodes(t, name, b) ==> a == b))
    case MapOf(e) => Transparent(e)
    case Slice(e) => Transparent(e)
    case Pointer(e) => Transparent(e)
    case Basic => true
  }

  lemma {:induction false} EncodesIsHasField(t: Ty, name: string, ty: Ty)
    requires t.Struct? && !t.custom && Transparent(t) && name != ""
    ensures Encodes(t, name, ty) <==> HasField(t, name, ty)
    decreases t
  {
    forall i | 0 <= i < |t.fields| && Inlined(t.fields[i]).Some?
      ensures t.fields[i].ty.Struct? && !t.fields[i].ty.custom
              && (Encodes(t.fields[i].ty, name, ty) <==> HasField(t.fields[i].ty, name, ty))
    {
      assert t.fields[i] in t.fields;
      EncodesIsHasField(t.fields[i].ty, name, ty);
    }
    assert forall i :: 0 <= i < |t.fields| ==> t.fields[i] in t.fields;
  }

  /** On a transparent type the checker's lookup and the encoding agree on every name. */
  lemma LookupIsEncoding(t: Ty, name: string, ty: Ty)
    requires t.Struct? && !t.custom && Transparent(t) && name != ""
    ensures FieldByJSONName(t, name) == Some(ty) <==> Encodes(t, name, ty)
  {
    FieldLookup(t, name, 0);
    EncodesIsHasField(t, name, ty);
    if FieldByJSONName(t, name).Some? {
      EncodesIsHasField(t, name, FieldByJSONName(t, name).value);
    }
  }

  /** A struct embedded by pointer is inlined by encoding/json and not entered by the lookup. */
  lemma EmbeddedPointerUnseen(t: Ty, e: Ty, name: string, ty: Ty)
    requires t.Struct? && e.Struct? && Encodes(e, name, ty) && name != ""
    requires exists goName :: t.fields == [Field(goName, "", true, Pointer(e))]
    ensures Encodes(t, name, ty) && FieldByJSONName(t, name) == None
  {
    var goName :| t.fields == [Field(goName, "", true, Pointer(e))];
    assert Inlined(t.fields[0]) == Some(e);
    FieldFromEnd(t, name);
  }

  lemma FieldFromEnd(t: Ty, name: string)
    requires t.Struct?
    ensures FieldFrom(t, name, |t.fields|) == None
  {
  }

  /** Every field name of the type and of the types below it is free of dots. */
  predicate DotFreeNames(t: Ty) {
    match t
    case Struct(_, fields, _) => forall f | f in fields :: DotFree(f.tag) && DotFreeNames(f.ty)
    case MapOf(e) => DotFreeNames(e)
    case Slice(e) => DotFreeNames(e)
    case Pointer(e) => DotFreeNames(e)
    case Basic => true
  }

  /** A value that is no JSON object: what a map may hold for its keys to be leaves. */
  predicate Flat(t: Ty) {
    match t
    case Struct(_, _, custom) => custom
    case MapOf(_) => false
    case Slice(_) => true
    case Pointer(e) => Flat(e)
    case Basic => true
  }

  /** No map of the type, at any depth, holds objects. */
  predicate FlatMaps(t: Ty) {
    match t
    case Struct(_, fields, _) => forall f | f in fields :: FlatMaps(f.ty)
    case MapOf(e) => Flat(e)
    case Slice(_) => true
    case Pointer(e) => FlatMaps(e)
    case Basic => true
  }

  predicate IsScalar(v: JSON) {
    !v.Obj? && !v.List?
  }

  /** The trees encoding/json can produce for a value of the type, or more. Lists are not entered: no
      rule path reaches into one. */
  ghost predicate Conforms(v: JSON, t: Ty)
    decreases v, t
  {
    match t
    case Pointer(e) => v == Null || Conforms(v, e)
    case Slice(_) => v == Null || v.List?
    case MapOf(e) => v == Null || (v.Obj? && forall k :: k in v.fields ==> Conforms(v.fields[k], e))
    case Basic => IsScalar(v)
    case Struct(_, _, custom) =>
      if custom then IsScalar(v)
      else v.Obj? && forall k :: k in v.fields ==>
        k != "" && exists ty :: Encodes(t, k, ty) && Conforms(v.fields[k], ty)
  }

  /** The lookup finds the type every field of a conforming object has. */
  lemma ConformsField(v: JSON, t: Ty, k: string)
    requires t.Struct? && !t.custom && Transparent(t) && v.Obj? && Conforms(v, t) && k in v.fields
    ensures k != "" && FieldByJSONName(t, k).Some? && Conforms(v.fields[k], FieldByJSONName(t, k).value)
  {
    var ty :| Encodes(t, k, ty) && Conforms(v.fields[k], ty);
    LookupIsEncoding(t, k, ty);
  }

  /** An object is never the value of a slice: what ElemType looks through is only pointers. */
  lemma {:induction false} ConformsElem(v: JSON, t: Ty)
    requires v.Obj? && Conforms(v, t)
    ensures Conforms(v, ElemType(t)) && ElemType(t) == ThroughPointers(t)
    ensures ElemType(t).MapOf? || (ElemType(t).Struct? && !ElemType(t).custom)
    ensures FlatMaps(t) ==> FlatMaps(ElemType(t))
    ensures DotFreeNames(t) ==> DotFreeNames(ElemType(t))
    ensures Transparent(t) ==> Transparent(ElemType(t))
    decreases t
  {
    if t.Pointer? {
      ConformsElem(v, t.elem);
    }
  }

  lemma {:induction false} FieldKeepsNames(t: Ty, name: string, i: nat)
    requires t.Struct? && i <= |t.fields| && FieldFrom(t, name, i).Some?
    ensures DotFreeNames(t) ==> DotFree(name) && DotFreeNames(FieldFrom(t, name, i).value)
    ensures FlatMaps(t) ==> FlatMaps(FieldFrom(t, name, i).value)
    ensures Transparent(t) && !t.custom ==> Transparent(FieldFrom(t, name, i).value)
    decreases t, |t.fields| - i
  {
    var f := t.fields[i];
    assert f in t.fields;
    if f.tag != name {
      if f.tag == "" && f.anonymous && f.ty.Struct? && FieldFrom(f.ty, name, 0).Some? {
        FieldKeepsNames(f.ty, name, 0);
      } else {
        FieldKeepsNames(t, name, i + 1);
      }
    }
  }

  /** One field down: what lies there conforms to the type the lookup finds for it. */
  lemma FieldStep(v: JSON, t: Ty, k: string) returns (u: Ty)
    requires v.Obj? && Conforms(v, t) && Transparent(t) && DotFreeNames(t) && k in v.fields && ElemType(t).Struct?
    ensures FieldByJSONName(ElemType(t), k) == Some(u) && Conforms(v.fields[k], u)
    ensures Transparent(u) && DotFreeNames(u) && DotFree(k) && (FlatMaps(t) ==> FlatMaps(u))
  {
    var e := ElemType(t);
    ConformsElem(v, t);
    ConformsField(v, e, k);
    FieldKeepsNames(e, k, 0);
    u := FieldByJSONName(e, k).value;
  }

  /** A flat map holds no objects. */
  lemma EntryIsFlat(v: JSON, t: Ty, k: string)
    requires v.Obj? && Conforms(v, t) && FlatMaps(t) && k in v.fields && ElemType(t).MapOf?
    ensures !v.fields[k].Obj?
  {
    ConformsElem(v, t);
    FlatHoldsNoObject(v.fields[k], ElemType(t).elem);
  }

  /** An object never conforms to a flat type. */
  lemma {:induction false} FlatHoldsNoObject(v: JSON, t: Ty)
    requires Flat(t) && Conforms(v, t)
    ensures !v.Obj?
    decreases t
  {
    if t.Pointer? && v != Null {
      FlatHoldsNoObject(v, t.elem);
    }
  }
}
