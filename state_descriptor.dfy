/**
 * `StateDescriptor`: the builder of the struct type that holds an operator's runtime
 * state during code generation. Entries are declared one by one; `ConstructFinalType`
 * then freezes them into a struct, optionally ordering them by decreasing size first.
 */
module StateDescriptor {
  import opened Wrappers
  import MathUtil

  /** An `ast::Identifier`, as made fresh by the code generator. */
  datatype Identifier = Identifier(name: string)

  /** The resolved type behind a slot's type representation: its byte size and alignment. */
  datatype TypeRepr = TypeRepr(size: nat, alignment: nat)

  /** `SlotInfo`: one declared state entry. */
  datatype Slot = Slot(name: Identifier, typeRepr: TypeRepr)

  /** `ast::FieldDecl`, made by `codegen->MakeField(name, type)`. */
  datatype Field = Field(name: Identifier, typeRepr: TypeRepr)

  /** `ast::StructDecl`, made by `codegen->DeclareStruct(name, fields)`. */
  datatype StructDecl = StructDecl(name: Identifier, fields: seq<Field>)

  /** The handle `DeclareStateEntry` returns: the member it names in the state struct. */
  datatype Entry = Entry(member: Identifier)

  /** Ordered as `std::sort` with `a.size > b.size` leaves them: by non-increasing size. */
  predicate SortedBySizeDesc(s: seq<Slot>)
  {
    forall i, j :: 0 <= i < j < |s| ==> s[i].typeRepr.size >= s[j].typeRepr.size
  }

  /** One field per slot, in slot order. */
  function FieldsOf(slots: seq<Slot>): (r: seq<Field>)
    ensures |r| == |slots|
    ensures forall i :: 0 <= i < |slots| ==> r[i] == Field(slots[i].name, slots[i].typeRepr)
  {
    seq(|slots|, i requires 0 <= i < |slots| => Field(slots[i].name, slots[i].typeRepr))
  }

  /** Prepending a slot at least as large as every slot of a sorted list keeps it sorted. */
  lemma PrependSorted(y: Slot, s: seq<Slot>)
    requires SortedBySizeDesc(s)
    requires forall z :: z in multiset(s) ==> y.typeRepr.size >= z.typeRepr.size
    ensures SortedBySizeDesc([y] + s)
  {
    forall j | 0 <= j < |s| ensures y.typeRepr.size >= s[j].typeRepr.size {
      assert s[j] in multiset(s);
    }
  }

  /** The first slot of a sorted list is at least as large as every slot of it. */
  lemma HeadIsLargest(s: seq<Slot>)
    requires SortedBySizeDesc(s) && s != []
    ensures forall z :: z in multiset(s) ==> s[0].typeRepr.size >= z.typeRepr.size
  {
    forall z | z in multiset(s) ensures s[0].typeRepr.size >= z.typeRepr.size {
      var j :| 0 <= j < |s| && s[j] == z;
    }
  }

  /** A bound on every slot of `a` and on `x` bounds every slot of a permutation of `a` plus `x`. */
  lemma BoundOfInsert(y: Slot, a: seq<Slot>, x: Slot, r: seq<Slot>)
    requires forall z :: z in multiset(a) ==> y.typeRepr.size >= z.typeRepr.size
    requires y.typeRepr.size >= x.typeRepr.size
    requires multiset(r) == multiset(a) + multiset{x}
    ensures forall z :: z in multiset(r) ==> y.typeRepr.size >= z.typeRepr.size
  {
  }

  /** Inserts `x` into a list sorted by non-increasing size after every slot at least as large. */
  function InsertBySize(x: Slot, s: seq<Slot>): (r: seq<Slot>)
    requires SortedBySizeDesc(s)
    ensures SortedBySizeDesc(r)
    ensures multiset(r) == multiset(s) + multiset{x}
  {
    if s == [] then [x]
    else if s[0].typeRepr.size >= x.typeRepr.size then
      var tail := s[1..];
      assert s == [s[0]] + tail;
      HeadIsLargest(s);
      var rest := InsertBySize(x, tail);
      BoundOfInsert(s[0], tail, x, rest);
      PrependSorted(s[0], rest);
      [s[0]] + rest
    else
      HeadIsLargest(s);
      PrependSorted(x, s);
      [x] + s
  }

  /** A sort by non-increasing size (insertion sort): a sorted permutation of its input. */
  function SortBySize(s: seq<Slot>): (r: seq<Slot>)
    ensures SortedBySizeDesc(r)
    ensures multiset(r) == multiset(s)
    ensures |r| == |s|
  {
    if s == [] then []
    else
      assert s == [s[0]] + s[1..];
      var r := InsertBySize(s[0], SortBySize(s[1..]));
      assert |r| == |multiset(r)|;
      r
  }

  /** The columns of a struct's fields, for the layout rule of `MathUtil`. */
  function ColumnsOf(fields: seq<Field>): (r: seq<MathUtil.Column>)
    ensures |r| == |fields|
    ensures forall i :: 0 <= i < |fields| ==> r[i] == MathUtil.Column(fields[i].typeRepr.size, fields[i].typeRepr.alignment)
  {
    seq(|fields|, i requires 0 <= i < |fields| => MathUtil.Column(fields[i].typeRepr.size, fields[i].typeRepr.alignment))
  }

  predicate FieldsWellFormed(fields: seq<Field>)
  {
    forall i :: 0 <= i < |fields| ==> fields[i].typeRepr.alignment > 0
  }

  /** The largest field alignment, or 1 for an empty struct. */
  function StructAlignment(fields: seq<Field>): (r: nat)
    requires FieldsWellFormed(fields)
    ensures r > 0
    ensures forall i :: 0 <= i < |fields| ==> fields[i].typeRepr.alignment <= r
  {
    if fields == [] then 1
    else
      var init := StructAlignment(fields[..|fields| - 1]);
      var last := fields[|fields| - 1].typeRepr.alignment;
      assert forall i :: 0 <= i < |fields| - 1 ==> fields[i] == fields[..|fields| - 1][i];
      if last > init then last else init
  }

  /**
   * The size of a struct with these fields: the fields laid out in order, each at its
   * alignment, then padded to the struct's alignment.
   */
  function StructSize(fields: seq<Field>): (r: nat)
    requires FieldsWellFormed(fields)
    ensures MathUtil.IsAligned(r, StructAlignment(fields))
    ensures r >= MathUtil.SumSizes(ColumnsOf(fields))
  {
    var cols := ColumnsOf(fields);
    MathUtil.LayoutCoversSizes(cols);
    MathUtil.AlignTo(MathUtil.LayoutEnd(cols), StructAlignment(fields))
  }

  class StateDescriptor {
    /** `name_`: the name of the state struct. */
    const name: Identifier
    /** `slots_`, in their current order. */
    var slots: seq<Slot>
    /** `state_type_`: `None` until the type is constructed. */
    var stateType: Option<StructDecl>

    ghost predicate Valid()
      reads this
    {
      stateType.Some? ==> stateType.value == StructDecl(name, FieldsOf(slots))
    }

    constructor (name: Identifier)
      ensures Valid() && this.name == name && slots == [] && stateType == None
    {
      this.name := name;
      slots := [];
      stateType := None;
    }

    /**
     * `DeclareStateEntry`: only before the type is constructed; appends one slot for the
     * fresh member the code generator made for this entry.
     */
    method DeclareStateEntry(member: Identifier, typeRepr: TypeRepr) returns (entry: Entry)
      requires Valid() && stateType == None
      modifies this
      ensures Valid()
      ensures slots == old(slots) + [Slot(member, typeRepr)]
      ensures stateType == None
      ensures entry == Entry(member)
    {
      slots := slots + [Slot(member, typeRepr)];
      entry := Entry(member);
    }

    /**
     * `ConstructFinalType`: builds the struct once, with one field per slot; with
     * `allowReorder` the slots are first sorted by non-increasing size. Later calls return
     * the struct already built and touch nothing.
     */
    method ConstructFinalType(allowReorder: bool) returns (decl: StructDecl)
      requires Valid()
      modifies this
      ensures Valid()
      ensures stateType == Some(decl)
      ensures old(stateType).Some? ==> decl == old(stateType).value && slots == old(slots)
      ensures old(stateType).None? && allowReorder ==>
        SortedBySizeDesc(slots) && multiset(slots) == multiset(old(slots))
      ensures old(stateType).None? && !allowReorder ==> slots == old(slots)
      ensures decl == StructDecl(name, FieldsOf(slots))
    {
      if stateType.Some? {
        return stateType.value;
      }
      if allowReorder {
        slots := SortBySize(slots);
      }
      var fields: seq<Field> := [];
      var i := 0;
      while i < |slots|
        invariant 0 <= i <= |slots|
        invariant fields == FieldsOf(slots[..i])
      {
        fields := fields + [Field(slots[i].name, slots[i].typeRepr)];
        i := i + 1;
      }
      assert slots[..i] == slots;
      decl := StructDecl(name, fields);
      stateType := Some(decl);
    }

    /** `GetSize`: only once the state type has been constructed. */
    method GetSize() returns (size: nat)
      requires Valid() && stateType.Some?
      requires FieldsWellFormed(stateType.value.fields)
      ensures size == StructSize(stateType.value.fields)
      ensures size >= MathUtil.SumSizes(ColumnsOf(FieldsOf(slots)))
    {
      size := StructSize(stateType.value.fields);
    }
  }
}
