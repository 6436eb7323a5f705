/**
  * The slice of the shader AST that the reduction opportunities and the
  * generator touch: types, struct types whose field lists are edited in place,
  * expressions (with a stable node identity), top-level declarations and the
  * translation unit that owns them.
  */
module Ast {
  import opened Seqs

  datatype TypeQualifier = Uniform | Const | In | Out

  /** A type: a basic type such as `vec2`, a struct type (by object identity), or a qualified type. */
  datatype Type =
    | BasicType(name: string)
    | StructTy(decl: StructType)
    | QualifiedType(qualifiers: seq<TypeQualifier>, target: Type)

  /** `Type.getWithoutQualifiers`: strips every layer of qualifiers. */
  function WithoutQualifiers(t: Type): (u: Type)
    ensures !u.QualifiedType?
    ensures !t.QualifiedType? ==> u == t
  {
    match t
    case QualifiedType(_, target) => WithoutQualifiers(target)
    case _ => t
  }

  datatype Field = Field(name: string, ty: Type)

  function FieldNames(fields: seq<Field>): (names: seq<string>)
    ensures |names| == |fields|
    ensures forall i :: 0 <= i < |fields| ==> names[i] == fields[i].name
  {
    seq(|fields|, i requires 0 <= i < |fields| => fields[i].name)
  }

  /** A struct type whose field list the reducer edits in place. */
  class StructType {
    const name: string
    var fields: seq<Field>

    constructor (name: string, fields: seq<Field>)
      ensures this.name == name && this.fields == fields
    {
      this.name := name;
      this.fields := fields;
    }

    /** `StructType.hasField` */
    predicate HasField(f: string)
      reads this
    {
      f in FieldNames(fields)
    }

    /** `StructType.removeField`: drops the first field named `f`. */
    method RemoveField(f: string)
      requires HasField(f)
      modifies this
      ensures fields == Splice(old(fields), FirstIndex(FieldNames(old(fields)), f), [])
    {
      fields := Splice(fields, FirstIndex(FieldNames(fields), f), []);
    }

    /** `StructType.insertField`: the new field lands at index `i`. */
    method InsertField(i: nat, f: string, ty: Type)
      requires i <= |fields|
      modifies this
      ensures fields == old(fields)[..i] + [Field(f, ty)] + old(fields)[i..]
    {
      fields := fields[..i] + [Field(f, ty)] + fields[i..];
    }
  }

  /**
    * Expressions, each node carrying the identity `id` of the Java object it
    * stands for, so that a typer keyed on nodes survives in-place rewriting.
    */
  datatype Expr =
    | MemberLookup(id: nat, structure: Expr, member: string)
    | TypeConstructor(id: nat, typename: string, args: seq<Expr>)
    | OtherExpr(id: nat, children: seq<Expr>)

  /** The kind of a top-level declaration; only variable declarations declare globals. */
  datatype DeclKind =
    | FunctionDefinition(name: string)
    | StructDefinition(struct: StructType)
    | VariablesDeclaration(baseType: Type, names: seq<string>)

  /** A top-level declaration: an object compared by identity. */
  class Declaration {
    const kind: DeclKind

    constructor (kind: DeclKind)
      ensures this.kind == kind
    {
      this.kind := kind;
    }
  }

  function Kinds(ds: seq<Declaration>): (ks: seq<DeclKind>)
    ensures |ks| == |ds|
    ensures forall i :: 0 <= i < |ds| ==> ks[i] == ds[i].kind
  {
    seq(|ds|, i requires 0 <= i < |ds| => ds[i].kind)
  }

  /** `TranslationUnit.getGlobalVarDeclInfos` mapped to names: the globals declared at top level, in order. */
  function GlobalVarNames(ks: seq<DeclKind>): seq<string>
  {
    if ks == [] then []
    else (if ks[0].VariablesDeclaration? then ks[0].names else []) + GlobalVarNames(ks[1..])
  }

  /** A name is a global exactly when some variable declaration declares it. */
  lemma {:induction false} GlobalVarNamesMembers(ks: seq<DeclKind>, n: string)
    ensures n in GlobalVarNames(ks) <==>
            exists i :: 0 <= i < |ks| && ks[i].VariablesDeclaration? && n in ks[i].names
  {
    if ks != [] {
      GlobalVarNamesMembers(ks[1..], n);
      if n in GlobalVarNames(ks[1..]) {
        var i :| 0 <= i < |ks[1..]| && ks[1..][i].VariablesDeclaration? && n in ks[1..][i].names;
        assert ks[i + 1] == ks[1..][i];
      }
      if exists i :: 0 <= i < |ks| && ks[i].VariablesDeclaration? && n in ks[i].names {
        var i :| 0 <= i < |ks| && ks[i].VariablesDeclaration? && n in ks[i].names;
        if i > 0 {
          assert ks[1..][i - 1] == ks[i];
        }
      }
    }
  }

  lemma {:induction false} GlobalVarNamesAppend(ks: seq<DeclKind>, k: DeclKind)
    ensures GlobalVarNames(ks + [k]) ==
            GlobalVarNames(ks) + (if k.VariablesDeclaration? then k.names else [])
  {
    if ks == [] {
      assert ks + [k] == [k];
    } else {
      assert (ks + [k])[1..] == ks[1..] + [k];
      GlobalVarNamesAppend(ks[1..], k);
    }
  }

  /**
    * The translation unit: its top-level declarations, and the expressions a
    * visitor reaches when it walks the unit, in visiting order.
    */
  class TranslationUnit {
    var topLevelDeclarations: seq<Declaration>
    var exprs: seq<Expr>

    constructor (decls: seq<Declaration>, exprs: seq<Expr>)
      ensures topLevelDeclarations == decls && this.exprs == exprs
    {
      topLevelDeclarations := decls;
      this.exprs := exprs;
    }

    /** `TranslationUnit.removeTopLevelDeclaration(i)` */
    method RemoveTopLevelDeclaration(i: nat)
      requires i < |topLevelDeclarations|
      modifies this
      ensures topLevelDeclarations == Splice(old(topLevelDeclarations), i, [])
      ensures exprs == old(exprs)
    {
      topLevelDeclarations := Splice(topLevelDeclarations, i, []);
    }

    /** `TranslationUnit.addDeclaration`: appends at the end. */
    method AddDeclaration(d: Declaration)
      modifies this
      ensures topLevelDeclarations == old(topLevelDeclarations) + [d]
      ensures exprs == old(exprs)
    {
      topLevelDeclarations := topLevelDeclarations + [d];
    }
  }

  /** What the modelled code can throw. */
  datatype Fault =
    | NoSuchField        // the field to inline is no longer in the struct
    | ClassCast          // a cast to StructType or TypeConstructorExpr fails
    | NullPointer        // a typer lookup yields null and is dereferenced
    | IndexOutOfBounds   // removeArg on a constructor with too few arguments
    | NullMember         // HashMap.get yields null for the member being renamed
    | Unreachable        // "Should be unreachable"

  datatype Outcome = Applied | Crashed(fault: Fault)
}
