/**
  * The reduction opportunity that deletes one top-level function or struct
  * declaration from a translation unit.
  */
module FunctionOrStruct {
  import opened Seqs
  import opened Ast

  /** The declaration list once the first occurrence of `d` is gone. */
  function WithoutFirst(ds: seq<Declaration>, d: Declaration): (r: seq<Declaration>)
    requires d in ds
  {
    Splice(ds, FirstIndex(ds, d), [])
  }

  /**
    * Removing the first occurrence of `d` drops exactly one element: every
    * entry before it stays where it was, every entry after it moves down by
    * one, and the multiset loses exactly one copy of `d`.
    */
  lemma WithoutFirstRemovesOne(ds: seq<Declaration>, d: Declaration)
    requires d in ds
    ensures |WithoutFirst(ds, d)| == |ds| - 1
    ensures forall j :: 0 <= j < FirstIndex(ds, d) ==> WithoutFirst(ds, d)[j] == ds[j]
    ensures forall j :: FirstIndex(ds, d) < j < |ds| ==> WithoutFirst(ds, d)[j - 1] == ds[j]
    ensures multiset(WithoutFirst(ds, d)) == multiset(ds) - multiset{d}
  {
    SpliceMultiset(ds, FirstIndex(ds, d), []);
  }

  /** If `d` occurred exactly once, it no longer occurs once removed. */
  lemma SoleOccurrenceGone(ds: seq<Declaration>, d: Declaration)
    requires multiset(ds)[d] == 1
    ensures d !in WithoutFirst(ds, d)
  {
    WithoutFirstRemovesOne(ds, d);
    assert multiset(WithoutFirst(ds, d))[d] == 0;
  }

  /** Every other declaration keeps its place relative to the others. */
  lemma WithoutFirstKeepsOthers(ds: seq<Declaration>, d: Declaration, a: nat, b: nat)
    requires d in ds
    requires a < b < |ds| && a != FirstIndex(ds, d) && b != FirstIndex(ds, d)
    ensures exists a', b' :: 0 <= a' < b' < |WithoutFirst(ds, d)| &&
              WithoutFirst(ds, d)[a'] == ds[a] && WithoutFirst(ds, d)[b'] == ds[b]
  {
    var i := FirstIndex(ds, d);
    var r := WithoutFirst(ds, d);
    var a' := if a < i then a else a - 1;
    var b' := if b < i then b else b - 1;
    assert r[a'] == ds[a] && r[b'] == ds[b];
  }

  class FunctionOrStructReductionOpportunity {
    const tu: TranslationUnit
    const decl: Declaration

    constructor (tu: TranslationUnit, decl: Declaration)
      ensures this.tu == tu && this.decl == decl
    {
      this.tu := tu;
      this.decl := decl;
    }

    /** The declaration is still among the unit's top-level declarations. */
    function PreconditionHolds(): (b: bool)
      reads tu
      ensures b <==> exists i :: 0 <= i < |tu.topLevelDeclarations| && tu.topLevelDeclarations[i] == decl
    {
      decl in tu.topLevelDeclarations
    }

    /**
      * Scans the declaration list by index and removes the first entry that is
      * `decl` itself; with no such entry it throws "Should be unreachable".
      */
    method ApplyReductionImpl() returns (outcome: Outcome)
      modifies tu
      ensures old(PreconditionHolds()) ==>
                outcome == Applied &&
                tu.topLevelDeclarations == WithoutFirst(old(tu.topLevelDeclarations), decl)
      ensures !old(PreconditionHolds()) ==>
                outcome == Crashed(Unreachable) &&
                tu.topLevelDeclarations == old(tu.topLevelDeclarations)
      ensures tu.exprs == old(tu.exprs)
    {
      var i := 0;
      while i < |tu.topLevelDeclarations|
        invariant i <= |tu.topLevelDeclarations|
        invariant decl !in tu.topLevelDeclarations[..i]
      {
        if tu.topLevelDeclarations[i] == decl {
          ghost var ds := tu.topLevelDeclarations;
          assert forall j :: 0 <= j < i ==> ds[j] == ds[..i][j];
          assert FirstIndex(ds, decl) == i;
          tu.RemoveTopLevelDeclaration(i);
          return Applied;
        }
        i := i + 1;
      }
      assert tu.topLevelDeclarations[..i] == tu.topLevelDeclarations;
      return Crashed(Unreachable);
    }
  }
}
