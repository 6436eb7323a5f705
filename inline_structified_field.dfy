/**
  * The reduction opportunity that undoes structification: a field of an outer
  * struct whose type is a struct introduced by the generator is replaced by
  * that struct's own fields, and every constructor call and member-lookup
  * chain that went through it is rewritten to address the promoted fields.
  */
module InlineStructifiedField {
  import opened Wrappers
  import opened Seqs
  import opened Ast

  /** `Constants.STRUCTIFICATION_FIELD_PREFIX`: marks fields the generator introduced. */
  const StructificationFieldPrefix: string := "_f"

  // ---------------------------------------------------------------------------
  // Renaming of promoted fields
  // ---------------------------------------------------------------------------

  /** The name an inner field takes in the outer struct: generated names get the inlined field's name in front. */
  function NewFieldName(fieldToInline: string, name: string): string
  {
    if StartsWith(name, StructificationFieldPrefix) then fieldToInline + name else name
  }

  /**
    * A name without the prefix is kept; every new name ends with the old one;
    * and when the inlined field carries the prefix, so does a new name exactly
    * when the old one did.
    */
  lemma NewFieldNameShape(fieldToInline: string, name: string)
    ensures !StartsWith(name, StructificationFieldPrefix) ==> NewFieldName(fieldToInline, name) == name
    ensures var r := NewFieldName(fieldToInline, name);
            |name| <= |r| && r[|r| - |name|..] == name
    ensures var r := NewFieldName(fieldToInline, name);
            StartsWith(fieldToInline, StructificationFieldPrefix) ==>
              (StartsWith(r, StructificationFieldPrefix) <==> StartsWith(name, StructificationFieldPrefix))
  {
  }

  /** Distinct inner names stay distinct once renamed. */
  lemma NewFieldNameInjective(fieldToInline: string, a: string, b: string)
    requires StartsWith(fieldToInline, StructificationFieldPrefix)
    requires NewFieldName(fieldToInline, a) == NewFieldName(fieldToInline, b)
    ensures a == b
  {
    var p := StructificationFieldPrefix;
    var n := |fieldToInline|;
    if StartsWith(a, p) && StartsWith(b, p) {
      assert a == (fieldToInline + a)[n..];
      assert b == (fieldToInline + b)[n..];
    }
  }

  /** No promoted field takes the name of the field being inlined. */
  lemma NewFieldNameNotInlined(fieldToInline: string, a: string)
    requires StartsWith(fieldToInline, StructificationFieldPrefix)
    ensures NewFieldName(fieldToInline, a) != fieldToInline
  {
    if StartsWith(a, StructificationFieldPrefix) {
      assert |fieldToInline + a| > |fieldToInline|;
    }
  }

  /** The inner struct's fields as they are inserted into the outer struct. */
  function Renamed(fieldToInline: string, fields: seq<Field>): seq<Field>
  {
    seq(|fields|, i requires 0 <= i < |fields| =>
      Field(NewFieldName(fieldToInline, fields[i].name), fields[i].ty))
  }

  /** Element `j` of the renamed list, spelled out for the solver. */
  lemma RenamedElements(fieldToInline: string, fields: seq<Field>)
    ensures |Renamed(fieldToInline, fields)| == |fields|
    ensures forall j :: 0 <= j < |fields| ==>
              Renamed(fieldToInline, fields)[j] == Field(NewFieldName(fieldToInline, fields[j].name), fields[j].ty)
  {
  }

  /** The old-to-new field name map built while the inner fields are inserted. */
  function NameMap(fieldToInline: string, fields: seq<Field>): map<string, string>
  {
    map n | n in FieldNames(fields) :: NewFieldName(fieldToInline, n)
  }

  /**
    * The outer struct after the splice: the fields before the inlined one,
    * then the renamed inner fields at its index, each with its own type, then
    * the fields after it.
    */
  function InlinedFields(outer: seq<Field>, i: nat, fieldToInline: string, inner: seq<Field>): (r: seq<Field>)
    requires i < |outer|
    ensures |r| == |outer| - 1 + |inner|
    ensures forall j :: 0 <= j < |inner| ==>
              r[i + j].ty == inner[j].ty && r[i + j].name == NewFieldName(fieldToInline, inner[j].name)
  {
    RenamedElements(fieldToInline, inner);
    Splice(outer, i, Renamed(fieldToInline, inner))
  }

  /** No two fields share a name, as in any well-formed struct. */
  predicate DistinctNames(fields: seq<Field>)
  {
    forall a, b :: 0 <= a < b < |fields| ==> fields[a].name != fields[b].name
  }

  /**
    * With distinct field names in the outer struct, the inlined field's name
    * is gone after the splice: the precondition cannot hold a second time.
    */
  lemma InlinedFieldGone(outer: seq<Field>, fieldToInline: string, inner: seq<Field>)
    requires StartsWith(fieldToInline, StructificationFieldPrefix)
    requires fieldToInline in FieldNames(outer)
    requires DistinctNames(outer)
    ensures fieldToInline !in
      FieldNames(InlinedFields(outer, FirstIndex(FieldNames(outer), fieldToInline), fieldToInline, inner))
  {
    var i := FirstIndex(FieldNames(outer), fieldToInline);
    var renamed := Renamed(fieldToInline, inner);
    RenamedElements(fieldToInline, inner);
    var r := Splice(outer, i, renamed);
    assert r == InlinedFields(outer, i, fieldToInline, inner);
    forall j | 0 <= j < |r|
      ensures r[j].name != fieldToInline
    {
      if j < i {
        assert r[j] == outer[j];
      } else if j < i + |inner| {
        var m := j - i;
        assert r[i + m] == renamed[m];
        NewFieldNameNotInlined(fieldToInline, inner[m].name);
      } else {
        var m := j + 1 - |inner|;
        assert r[m - 1 + |inner|] == outer[m];
      }
    }
  }

  /** Distinct inner names give distinct promoted names. */
  lemma RenamedDistinct(fieldToInline: string, inner: seq<Field>)
    requires StartsWith(fieldToInline, StructificationFieldPrefix)
    requires DistinctNames(inner)
    ensures DistinctNames(Renamed(fieldToInline, inner))
  {
    forall a, b | 0 <= a < b < |inner|
      ensures Renamed(fieldToInline, inner)[a].name != Renamed(fieldToInline, inner)[b].name
    {
      if NewFieldName(fieldToInline, inner[a].name) == NewFieldName(fieldToInline, inner[b].name) {
        NewFieldNameInjective(fieldToInline, inner[a].name, inner[b].name);
      }
    }
  }

  // ---------------------------------------------------------------------------
  // The visitor that patches constructor calls and member lookups
  // ---------------------------------------------------------------------------

  /**
    * What the visitor closes over: the outer and inner struct types, the
    * inlined field, its former index, the old-to-new name map, and the types
    * the typer recorded (by node) before the outer struct was edited.
    */
  datatype Context = Context(
    outer: StructType,
    inner: StructType,
    fieldToInline: string,
    index: nat,
    names: map<string, string>,
    types: map<nat, Type>)

  /** The typer recorded, for node `e`, the struct type `s` (qualifiers aside). */
  predicate RecordedAs(types: map<nat, Type>, e: Expr, s: StructType)
  {
    e.id in types && WithoutQualifiers(types[e.id]) == StructTy(s)
  }

  /**
    * `s.m` goes through the wrapper: `s` has the inner struct type and is a
    * lookup of the inlined field on a value of the outer struct type.
    */
  predicate GoesThroughWrapper(c: Context, s: Expr)
  {
    && RecordedAs(c.types, s, c.inner)
    && s.MemberLookup?
    && RecordedAs(c.types, s.structure, c.outer)
    && s.member == c.fieldToInline
  }

  /**
    * `visitMemberLookupExpr` once the structure `s` has been visited: a lookup
    * through the wrapper becomes a lookup of the promoted field on the
    * wrapper's base; every other lookup is left alone. A base with no
    * recorded type, or a non-struct one, is dereferenced or cast and throws,
    * and a member missing from the name map yields null.
    */
  function PatchLookup(c: Context, id: nat, s: Expr, m: string): (r: Result<Expr, Fault>)
    ensures r.Success? && r.value != MemberLookup(id, s, m) <==> GoesThroughWrapper(c, s) && m in c.names
    ensures GoesThroughWrapper(c, s) && m in c.names ==>
              r == Success(MemberLookup(id, s.structure, c.names[m]))
    ensures GoesThroughWrapper(c, s) && m !in c.names ==> r == Failure(NullMember)
    ensures !RecordedAs(c.types, s, c.inner) || !s.MemberLookup? ==> r == Success(MemberLookup(id, s, m))
    ensures RecordedAs(c.types, s, c.inner) && s.MemberLookup? && s.structure.id !in c.types ==>
              r == Failure(NullPointer)
    ensures RecordedAs(c.types, s, c.inner) && s.MemberLookup? && s.structure.id in c.types &&
              !WithoutQualifiers(c.types[s.structure.id]).StructTy? ==>
              r == Failure(ClassCast)
    ensures r.Failure? ==> r.error in {NullPointer, ClassCast, NullMember}
    ensures r.Failure? <==>
              && RecordedAs(c.types, s, c.inner)
              && s.MemberLookup?
              && (|| s.structure.id !in c.types
                  || !WithoutQualifiers(c.types[s.structure.id]).StructTy?
                  || (GoesThroughWrapper(c, s) && m !in c.names))
  {
    var kept := Success(MemberLookup(id, s, m));
    if !RecordedAs(c.types, s, c.inner) || !s.MemberLookup? then kept
    else if s.structure.id !in c.types then Failure(NullPointer)
    else if !WithoutQualifiers(c.types[s.structure.id]).StructTy? then Failure(ClassCast)
    else if WithoutQualifiers(c.types[s.structure.id]).decl != c.outer then kept
    else if s.member != c.fieldToInline then kept
    else if m !in c.names then Failure(NullMember)
    else
      assert s.structure < s;
      Success(MemberLookup(id, s.structure, c.names[m]))
  }

  /**
    * `visitTypeConstructorExpr` once the arguments have been visited: a call
    * of the outer struct's constructor has its argument at the inlined index
    * replaced by that argument's own arguments, in order. Too few arguments,
    * or an argument there that is not a constructor call, throws.
    */
  function PatchConstructor(c: Context, id: nat, typename: string, args: seq<Expr>): (r: Result<Expr, Fault>)
    ensures typename != c.outer.name ==> r == Success(TypeConstructor(id, typename, args))
    ensures r.Success? && typename == c.outer.name ==>
              && c.index < |args| && args[c.index].TypeConstructor?
              && r.value == TypeConstructor(id, typename, Splice(args, c.index, args[c.index].args))
              && |r.value.args| == |args| - 1 + |args[c.index].args|
    ensures r.Failure? <==>
              typename == c.outer.name && (c.index >= |args| || !args[c.index].TypeConstructor?)
  {
    if typename != c.outer.name then Success(TypeConstructor(id, typename, args))
    else if c.index >= |args| then Failure(IndexOutOfBounds)
    else if !args[c.index].TypeConstructor? then Failure(ClassCast)
    else Success(TypeConstructor(id, typename, Splice(args, c.index, args[c.index].args)))
  }

  /**
    * The whole walk of `StandardVisitor` over one expression: children first,
    * left to right, then the node itself; the first throw ends the walk.
    * Every node keeps its identity.
    */
  function Rewritten(c: Context, e: Expr): (r: Result<Expr, Fault>)
    ensures r.Success? ==> r.value.id == e.id
    decreases e
  {
    match e
    case MemberLookup(id, s, m) =>
      var rs := Rewritten(c, s);
      if rs.Failure? then rs else PatchLookup(c, id, rs.value, m)
    case TypeConstructor(id, tn, args) =>
      var ra := RewrittenList(c, args);
      if ra.Failure? then Failure(ra.error) else PatchConstructor(c, id, tn, ra.value)
    case OtherExpr(id, ch) =>
      var ra := RewrittenList(c, ch);
      if ra.Failure? then Failure(ra.error) else Success(OtherExpr(id, ra.value))
  }

  /** `Rewritten` over a list of expressions, in order, stopping at the first throw. */
  function RewrittenList(c: Context, es: seq<Expr>): (r: Result<seq<Expr>, Fault>)
    ensures r.Success? ==> |r.value| == |es|
    ensures r.Success? ==> forall k :: 0 <= k < |es| ==> r.value[k].id == es[k].id
    decreases es
  {
    if es == [] then Success([])
    else
      var h := Rewritten(c, es[0]);
      if h.Failure? then Failure(h.error)
      else
        var t := RewrittenList(c, es[1..]);
        if t.Failure? then t else Success([h.value] + t.value)
  }

  /** Walking a list one more element at its end. */
  lemma {:induction false} RewrittenListAppend(c: Context, es: seq<Expr>, e: Expr)
    ensures RewrittenList(c, es + [e]) ==
      match RewrittenList(c, es)
      case Failure(f) => Failure(f)
      case Success(rs) =>
        match Rewritten(c, e)
        case Failure(f) => Failure(f)
        case Success(x) => Success(rs + [x])
  {
    if es == [] {
      assert es + [e] == [e];
      assert [e][1..] == [];
      if Rewritten(c, e).Success? {
        assert [Rewritten(c, e).value] + [] == [] + [Rewritten(c, e).value];
      }
    } else {
      assert (es + [e])[0] == es[0];
      assert (es + [e])[1..] == es[1..] + [e];
      RewrittenListAppend(c, es[1..], e);
      var h := Rewritten(c, es[0]);
      if h.Success? {
        var t := RewrittenList(c, es[1..]);
        if t.Success? && Rewritten(c, e).Success? {
          assert [h.value] + (t.value + [Rewritten(c, e).value]) ==
                 ([h.value] + t.value) + [Rewritten(c, e).value];
        }
      }
    }
  }

  /**
    * No lookup in `e` still goes through the wrapper: the form every
    * expression takes after a successful walk.
    */
  predicate NoWrapperLookups(c: Context, e: Expr)
    decreases e
  {
    match e
    case MemberLookup(_, s, _) => !GoesThroughWrapper(c, s) && NoWrapperLookups(c, s)
    case TypeConstructor(_, _, args) => forall a | a in args :: NoWrapperLookups(c, a)
    case OtherExpr(_, ch) => forall a | a in ch :: NoWrapperLookups(c, a)
  }

  /**
    * After a walk that does not throw, no lookup `x.<fieldToInline>.f` whose
    * base is itself that member lookup is left: each has become a direct
    * access (the two struct types being distinct, as GLSL struct types cannot
    * nest themselves). Other uses of `x.<fieldToInline>` are not touched.
    */
  lemma {:induction false} RewrittenLeavesNoWrapperLookups(c: Context, e: Expr)
    requires c.inner != c.outer
    requires Rewritten(c, e).Success?
    ensures NoWrapperLookups(c, Rewritten(c, e).value)
    decreases e
  {
    match e
    case MemberLookup(id, s, m) =>
      RewrittenLeavesNoWrapperLookups(c, s);
      var rs := Rewritten(c, s).value;
      if GoesThroughWrapper(c, rs) && m in c.names {
        assert !GoesThroughWrapper(c, rs.structure);
        assert NoWrapperLookups(c, rs.structure);
      }
    case TypeConstructor(id, tn, args) =>
      RewrittenListLeavesNoWrapperLookups(c, args);
      var ra := RewrittenList(c, args).value;
      if tn == c.outer.name {
        var nested := ra[c.index].args;
        assert NoWrapperLookups(c, ra[c.index]);
        forall a | a in Splice(ra, c.index, nested)
          ensures NoWrapperLookups(c, a)
        {
          if a !in ra {
            assert a in nested;
          }
        }
      }
    case OtherExpr(id, ch) =>
      RewrittenListLeavesNoWrapperLookups(c, ch);
  }

  lemma {:induction false} RewrittenListLeavesNoWrapperLookups(c: Context, es: seq<Expr>)
    requires c.inner != c.outer
    requires RewrittenList(c, es).Success?
    ensures forall a | a in RewrittenList(c, es).value :: NoWrapperLookups(c, a)
    decreases es
  {
    if es != [] {
      RewrittenLeavesNoWrapperLookups(c, es[0]);
      RewrittenListLeavesNoWrapperLookups(c, es[1..]);
    }
  }

  /**
    * The `removeArg` / `insertArg` loop: the argument at `i` is removed and the
    * nested arguments are inserted one by one from index `i` on.
    */
  method ReplaceArgByItsArgs(args: seq<Expr>, i: nat, nested: seq<Expr>) returns (r: seq<Expr>)
    requires i < |args|
    ensures r == Splice(args, i, nested)
  {
    r := args[..i] + args[i + 1..];
    var k := 0;
    while k < |nested|
      invariant k <= |nested|
      invariant r == args[..i] + nested[..k] + args[i + 1..]
    {
      assert (args[..i] + nested[..k])[..i + k] == args[..i] + nested[..k];
      r := r[..i + k] + [nested[k]] + r[i + k..];
      assert nested[..k + 1] == nested[..k] + [nested[k]];
      k := k + 1;
    }
    assert nested[..k] == nested;
  }

  /** The visitor applied to one expression, as `Rewritten` specifies it. */
  method Visit(c: Context, e: Expr) returns (r: Result<Expr, Fault>)
    ensures r == Rewritten(c, e)
    decreases e, 1
  {
    match e
    case MemberLookup(id, s, m) =>
      var rs := Visit(c, s);
      if rs.Failure? {
        return rs;
      }
      r := PatchLookup(c, id, rs.value, m);
    case TypeConstructor(id, tn, args) =>
      var ra := VisitAll(c, args);
      if ra.Failure? {
        return Failure(ra.error);
      }
      var visited := ra.value;
      if tn == c.outer.name {
        if c.index >= |visited| {
          return Failure(IndexOutOfBounds);
        }
        var oldArg := visited[c.index];
        if !oldArg.TypeConstructor? {
          return Failure(ClassCast);
        }
        visited := ReplaceArgByItsArgs(visited, c.index, oldArg.args);
      }
      r := Success(TypeConstructor(id, tn, visited));
    case OtherExpr(id, ch) =>
      var ra := VisitAll(c, ch);
      if ra.Failure? {
        return Failure(ra.error);
      }
      r := Success(OtherExpr(id, ra.value));
  }

  /** The visitor applied to each expression of a list in turn. */
  method VisitAll(c: Context, es: seq<Expr>) returns (r: Result<seq<Expr>, Fault>)
    ensures r == RewrittenList(c, es)
    decreases es, 0
  {
    var done: seq<Expr> := [];
    var j := 0;
    while j < |es|
      invariant j <= |es|
      invariant RewrittenList(c, es[..j]) == Success(done)
    {
      var x := Visit(c, es[j]);
      RewrittenListAppend(c, es[..j], es[j]);
      assert es[..j + 1] == es[..j] + [es[j]];
      if x.Failure? {
        FailureExtends(c, es, j + 1);
        return Failure(x.error);
      }
      done := done + [x.value];
      j := j + 1;
    }
    assert es[..j] == es;
    r := Success(done);
  }

  /** A throw within a prefix of the list is the throw of the whole list. */
  lemma {:induction false} FailureExtends(c: Context, es: seq<Expr>, j: nat)
    requires j <= |es|
    requires RewrittenList(c, es[..j]).Failure?
    ensures RewrittenList(c, es) == RewrittenList(c, es[..j])
    decreases |es| - j
  {
    if j < |es| {
      RewrittenListAppend(c, es[..j], es[j]);
      assert es[..j + 1] == es[..j] + [es[j]];
      FailureExtends(c, es, j + 1);
    } else {
      assert es[..j] == es;
    }
  }

  // ---------------------------------------------------------------------------
  // The opportunity
  // ---------------------------------------------------------------------------

  /** No field of `s` has `s` itself as its type: GLSL struct types cannot nest themselves. */
  predicate NotSelfNested(s: StructType)
    reads s
  {
    forall i :: 0 <= i < |s.fields| ==> WithoutQualifiers(s.fields[i].ty) != StructTy(s)
  }

  class InlineStructifiedFieldReductionOpportunity {
    const outerStruct: StructType
    const fieldToInline: string
    const tu: TranslationUnit

    /** Only a generated field whose type is a struct may be inlined. */
    constructor (outerStruct: StructType, fieldToInline: string, tu: TranslationUnit)
      requires StartsWith(fieldToInline, StructificationFieldPrefix)
      requires outerStruct.HasField(fieldToInline)
      requires WithoutQualifiers(
                 outerStruct.fields[FirstIndex(FieldNames(outerStruct.fields), fieldToInline)].ty).StructTy?
      ensures this.outerStruct == outerStruct && this.fieldToInline == fieldToInline && this.tu == tu
      ensures Valid()
    {
      this.outerStruct := outerStruct;
      this.fieldToInline := fieldToInline;
      this.tu := tu;
    }

    /** What the constructor asserts of the field name, and which no later step changes. */
    predicate Valid()
    {
      StartsWith(fieldToInline, StructificationFieldPrefix)
    }

    /** The field has not been reduced away. */
    function PreconditionHolds(): (b: bool)
      reads outerStruct
      ensures b <==> exists i :: 0 <= i < |outerStruct.fields| && outerStruct.fields[i].name == fieldToInline
    {
      outerStruct.HasField(fieldToInline)
    }

    /** `getFieldIndex(fieldToInline)` */
    function InlinedIndex(): (i: nat)
      reads outerStruct
      requires PreconditionHolds()
      ensures i < |outerStruct.fields| && outerStruct.fields[i].name == fieldToInline
    {
      FirstIndex(FieldNames(outerStruct.fields), fieldToInline)
    }

    /** `getFieldType(fieldToInline).getWithoutQualifiers()` */
    function InlinedType(): (t: Type)
      reads outerStruct
      requires PreconditionHolds()
      ensures !t.QualifiedType?
      ensures !outerStruct.fields[InlinedIndex()].ty.QualifiedType? ==> t == outerStruct.fields[InlinedIndex()].ty
    {
      WithoutQualifiers(outerStruct.fields[InlinedIndex()].ty)
    }

    /**
      * Splices the inner struct's fields into the outer struct at the inlined
      * field's index, then walks every expression of the unit patching
      * constructor calls and member lookups with the types recorded in `types`.
      */
    method ApplyReductionImpl(types: map<nat, Type>) returns (outcome: Outcome)
      requires Valid()
      requires NotSelfNested(outerStruct)
      modifies outerStruct, tu
      ensures !old(PreconditionHolds()) ==>
                outcome == Crashed(NoSuchField) &&
                outerStruct.fields == old(outerStruct.fields) && tu.exprs == old(tu.exprs)
      ensures old(PreconditionHolds()) && !old(InlinedType()).StructTy? ==>
                outcome == Crashed(ClassCast) &&
                outerStruct.fields == old(outerStruct.fields) && tu.exprs == old(tu.exprs)
      ensures old(PreconditionHolds()) && old(InlinedType()).StructTy? ==>
                var i := old(InlinedIndex());
                var inner := old(InlinedType()).decl;
                var c := Context(outerStruct, inner, fieldToInline, i,
                                 NameMap(fieldToInline, inner.fields), types);
                var walked := RewrittenList(c, old(tu.exprs));
                && inner != outerStruct
                && inner.fields == old(inner.fields)
                && outerStruct.fields == InlinedFields(old(outerStruct.fields), i, fieldToInline, inner.fields)
                && (walked.Success? ==> outcome == Applied && tu.exprs == walked.value)
                && (walked.Failure? ==>
                      && outcome == Crashed(walked.error)
                      && exists j :: 0 <= j < |old(tu.exprs)| && RewrittenList(c, old(tu.exprs)[..j]).Success? &&
                           Rewritten(c, old(tu.exprs)[j]).Failure? &&
                           tu.exprs == RewrittenList(c, old(tu.exprs)[..j]).value + old(tu.exprs)[j..])
      ensures old(PreconditionHolds()) && old(InlinedType()).StructTy? && old(DistinctNames(outerStruct.fields)) ==>
                !PreconditionHolds()
      ensures tu.topLevelDeclarations == old(tu.topLevelDeclarations)
    {
      if !outerStruct.HasField(fieldToInline) {
        return Crashed(NoSuchField);
      }
      var i := FirstIndex(FieldNames(outerStruct.fields), fieldToInline);
      var ty := WithoutQualifiers(outerStruct.fields[i].ty);
      if !ty.StructTy? {
        return Crashed(ClassCast);
      }
      var inner := ty.decl;
      assert inner != outerStruct;
      assert allocated(inner);
      ghost var before := outerStruct.fields;
      if DistinctNames(before) {
        InlinedFieldGone(before, fieldToInline, inner.fields);
      }
      var names := SpliceInnerFields(outerStruct, i, fieldToInline, inner);
      var c := Context(outerStruct, inner, fieldToInline, i, names, types);
      outcome := VisitUnit(tu, c);
    }
  }

  /**
    * `removeField` followed by the `insertField` loop that fills the
    * old-to-new name map: the inner struct is only read.
    */
  method SpliceInnerFields(outer: StructType, i: nat, fieldToInline: string, inner: StructType)
    returns (names: map<string, string>)
    requires inner != outer
    requires outer.HasField(fieldToInline) && i == FirstIndex(FieldNames(outer.fields), fieldToInline)
    modifies outer
    ensures outer.fields == InlinedFields(old(outer.fields), i, fieldToInline, inner.fields)
    ensures names == NameMap(fieldToInline, inner.fields)
  {
    ghost var outerFields := outer.fields;
    var innerFields := inner.fields;
    outer.RemoveField(fieldToInline);
    SpliceStarted(outerFields, i, fieldToInline, innerFields);
    names := map[];
    var k := 0;
    while k < |innerFields|
      invariant k <= |innerFields|
      invariant outer.fields ==
                outerFields[..i] + Renamed(fieldToInline, innerFields[..k]) + outerFields[i + 1..]
      invariant names == NameMap(fieldToInline, innerFields[..k])
    {
      var oldFieldName := innerFields[k].name;
      var newFieldName := NewFieldName(fieldToInline, oldFieldName);
      names := names[oldFieldName := newFieldName];
      InsertAfterRenamed(outerFields, i, fieldToInline, innerFields, k);
      outer.InsertField(i + k, newFieldName, innerFields[k].ty);
      NameMapExtend(fieldToInline, innerFields, k);
      k := k + 1;
    }
    SpliceFinished(outerFields, i, fieldToInline, innerFields);
  }

  /**
    * `visit(tu)`: each expression of the unit is replaced by its walked form
    * in turn; a throw leaves the expressions walked so far rewritten and the
    * rest as they were.
    */
  method VisitUnit(tu: TranslationUnit, c: Context) returns (outcome: Outcome)
    modifies tu
    ensures RewrittenList(c, old(tu.exprs)).Success? ==>
              outcome == Applied && tu.exprs == RewrittenList(c, old(tu.exprs)).value
    ensures RewrittenList(c, old(tu.exprs)).Failure? ==>
              outcome == Crashed(RewrittenList(c, old(tu.exprs)).error) &&
              exists j :: 0 <= j < |old(tu.exprs)| && RewrittenList(c, old(tu.exprs)[..j]).Success? &&
                Rewritten(c, old(tu.exprs)[j]).Failure? &&
                tu.exprs == RewrittenList(c, old(tu.exprs)[..j]).value + old(tu.exprs)[j..]
    ensures tu.topLevelDeclarations == old(tu.topLevelDeclarations)
  {
    ghost var exprs := tu.exprs;
    var j := 0;
    while j < |tu.exprs|
      invariant j <= |tu.exprs| == |exprs|
      invariant RewrittenList(c, exprs[..j]).Success?
      invariant tu.exprs == RewrittenList(c, exprs[..j]).value + exprs[j..]
      invariant tu.topLevelDeclarations == old(tu.topLevelDeclarations)
    {
      var x := Visit(c, tu.exprs[j]);
      VisitStep(c, exprs, j, tu.exprs);
      if x.Failure? {
        return Crashed(x.error);
      }
      tu.exprs := tu.exprs[j := x.value];
      j := j + 1;
    }
    assert exprs[..j] == exprs;
    return Applied;
  }

  /**
    * One step of `VisitUnit`: with the first `j` expressions walked, walking
    * the next one either fails, and then the whole list fails the same way,
    * or extends the walked prefix by one.
    */
  lemma VisitStep(c: Context, exprs: seq<Expr>, j: nat, cur: seq<Expr>)
    requires j < |exprs|
    requires RewrittenList(c, exprs[..j]).Success?
    requires cur == RewrittenList(c, exprs[..j]).value + exprs[j..]
    ensures cur[j] == exprs[j]
    ensures Rewritten(c, exprs[j]).Failure? ==> RewrittenList(c, exprs) == Failure(Rewritten(c, exprs[j]).error)
    ensures Rewritten(c, exprs[j]).Success? ==>
              && RewrittenList(c, exprs[..j + 1]).Success?
              && cur[j := Rewritten(c, exprs[j]).value] == RewrittenList(c, exprs[..j + 1]).value + exprs[j + 1..]
  {
    RewrittenListAppend(c, exprs[..j], exprs[j]);
    assert exprs[..j + 1] == exprs[..j] + [exprs[j]];
    if Rewritten(c, exprs[j]).Failure? {
      FailureExtends(c, exprs, j + 1);
    }
  }

  /** Inserting the next renamed field at `i + k` extends the spliced prefix by one. */
  lemma InsertAfterRenamed(outer: seq<Field>, i: nat, f: string, inner: seq<Field>, k: nat)
    requires i < |outer| && k < |inner|
    ensures var cur := outer[..i] + Renamed(f, inner[..k]) + outer[i + 1..];
            i + k <= |cur| &&
            cur[..i + k] + [Field(NewFieldName(f, inner[k].name), inner[k].ty)] + cur[i + k..] ==
            outer[..i] + Renamed(f, inner[..k + 1]) + outer[i + 1..]
  {
    var cur := outer[..i] + Renamed(f, inner[..k]) + outer[i + 1..];
    assert cur[..i + k] == outer[..i] + Renamed(f, inner[..k]);
    assert cur[i + k..] == outer[i + 1..];
    assert Renamed(f, inner[..k + 1]) ==
           Renamed(f, inner[..k]) + [Field(NewFieldName(f, inner[k].name), inner[k].ty)];
  }

  /** After `removeField` nothing of the inner struct has been inserted yet. */
  lemma SpliceStarted(outer: seq<Field>, i: nat, f: string, inner: seq<Field>)
    requires i < |outer|
    ensures Splice(outer, i, []) == outer[..i] + Renamed(f, inner[..0]) + outer[i + 1..]
    ensures NameMap(f, inner[..0]) == map[]
  {
    assert Renamed(f, inner[..0]) == [];
  }

  /** Once every inner field is inserted, the outer list is the full splice. */
  lemma SpliceFinished(outer: seq<Field>, i: nat, f: string, inner: seq<Field>)
    requires i < |outer|
    ensures outer[..i] + Renamed(f, inner[..|inner|]) + outer[i + 1..] == InlinedFields(outer, i, f, inner)
    ensures NameMap(f, inner[..|inner|]) == NameMap(f, inner)
  {
    assert inner[..|inner|] == inner;
  }

  /** Putting one more inner name into the map gives the map of one more field. */
  lemma NameMapExtend(f: string, inner: seq<Field>, k: nat)
    requires k < |inner|
    ensures NameMap(f, inner[..k])[inner[k].name := NewFieldName(f, inner[k].name)] ==
            NameMap(f, inner[..k + 1])
  {
    assert FieldNames(inner[..k + 1]) == FieldNames(inner[..k]) + [inner[k].name];
  }
}
