/**
  * The generator's selection logic: which transformations are enabled, which
  * of them are tried and in what order, how many passes are made, and the
  * injection-switch uniform every variant declares. What each transformation
  * does to the shader is outside the model; transformations are named by
  * their kind only.
  */
module Generate {
  import opened Wrappers
  import opened Seqs
  import opened Ast
  import opened Random

  datatype Transformation =
    | DonateDeadCode
    | AddJumpStmts
    | DonateLiveCode
    | MutateExpressions
    | OutlineStatements
    | SplitForLoops
    | Structification
    | AddSwitchStmts
    | VectorizeStatements
    | AddWrappingConditionalStmts
    | AddDeadOutputVariableWrites
    | AddLiveOutputVariableWrites

  datatype ShaderKind = Fragment | Vertex

  datatype Error =
    | IncompatibleFlags        // "--disable and --enable_only are not compatible"
    | NoTransformationEnabled  // "At least one transformation must be enabled"

  /** Every transformation, in the order `populateTransformations` considers them. */
  const AllTransformations: seq<Transformation> := [
    DonateDeadCode, AddJumpStmts, DonateLiveCode, MutateExpressions, OutlineStatements,
    SplitForLoops, Structification, AddSwitchStmts, VectorizeStatements,
    AddWrappingConditionalStmts, AddDeadOutputVariableWrites, AddLiveOutputVariableWrites]

  /** The position of `t` in `AllTransformations`. */
  function Rank(t: Transformation): (k: nat)
    ensures k < |AllTransformations|
  {
    match t
    case DonateDeadCode => 0
    case AddJumpStmts => 1
    case DonateLiveCode => 2
    case MutateExpressions => 3
    case OutlineStatements => 4
    case SplitForLoops => 5
    case Structification => 6
    case AddSwitchStmts => 7
    case VectorizeStatements => 8
    case AddWrappingConditionalStmts => 9
    case AddDeadOutputVariableWrites => 10
    case AddLiveOutputVariableWrites => 11
  }

  /** Which transformations the command line switched off. */
  datatype EnabledTransformations = EnabledTransformations(disabled: set<Transformation>)
  {
    predicate IsEnabled(t: Transformation) {
      t !in disabled
    }
  }

  // ---------------------------------------------------------------------------
  // Flags and the list of enabled transformations
  // ---------------------------------------------------------------------------

  /** `List.removeAll`: the elements of `s` not in `xs`, in order. */
  function RemoveAll(s: seq<Transformation>, xs: seq<Transformation>): (r: seq<Transformation>)
    ensures forall t :: t in r <==> t in s && t !in xs
  {
    if s == [] then []
    else (if s[0] in xs then [] else [s[0]]) + RemoveAll(s[1..], xs)
  }

  /** `toDisable.forEach(result::disable)` on a fresh `EnabledTransformations`. */
  method DisableAll(toDisable: seq<Transformation>) returns (result: EnabledTransformations)
    ensures forall t :: result.IsEnabled(t) <==> t !in toDisable
  {
    result := EnabledTransformations({});
    for i := 0 to |toDisable|
      invariant forall t :: t in result.disabled <==> t in toDisable[..i]
    {
      assert toDisable[..i + 1] == toDisable[..i] + [toDisable[i]];
      result := result.(disabled := result.disabled + {toDisable[i]});
    }
    assert toDisable[..|toDisable|] == toDisable;
  }

  /**
    * `getTransformationDisablingFlags`: `--disable` names the disabled ones,
    * `--enable_only` names the only enabled ones, and the two together are an
    * error. `None` stands for a flag that was not given.
    */
  method GetTransformationDisablingFlags(
    disable: Option<seq<Transformation>>,
    enableOnly: Option<seq<Transformation>>)
    returns (r: Result<EnabledTransformations, Error>)
    ensures r.Failure? <==> disable.Some? && enableOnly.Some?
    ensures r.Failure? ==> r.error == IncompatibleFlags
    ensures disable.Some? && enableOnly.None? ==>
              r.Success? && forall t :: r.value.IsEnabled(t) <==> t !in disable.value
    ensures disable.None? && enableOnly.Some? ==>
              r.Success? && forall t :: r.value.IsEnabled(t) <==> t in enableOnly.value
    ensures disable.None? && enableOnly.None? ==> r.Success? && forall t :: r.value.IsEnabled(t)
  {
    var toDisable: seq<Transformation> := [];
    if disable.Some? {
      if enableOnly.Some? {
        return Failure(IncompatibleFlags);
      }
      toDisable := toDisable + disable.value;
      assert toDisable == disable.value;
    } else if enableOnly.Some? {
      toDisable := toDisable + AllTransformations;
      toDisable := RemoveAll(toDisable, enableOnly.value);
    }
    var result := DisableAll(toDisable);
    if enableOnly.Some? {
      forall t ensures t in AllTransformations {
        RankIsPosition(t);
      }
    }
    return Success(result);
  }

  /**
    * Whether `populateTransformations` puts `t` in its list: it must be
    * enabled, switch statements need a language version that supports them,
    * and dead output-variable writes are for fragment shaders only.
    */
  predicate Admitted(flags: EnabledTransformations, supportsSwitch: bool, kind: ShaderKind, t: Transformation)
  {
    && flags.IsEnabled(t)
    && (t == AddSwitchStmts ==> supportsSwitch)
    && (t == AddDeadOutputVariableWrites ==> kind == Fragment)
  }

  /** The first `k` transformations that `populateTransformations` admits, in order. */
  function AdmittedUpTo(
    k: nat, flags: EnabledTransformations, supportsSwitch: bool, kind: ShaderKind): seq<Transformation>
    requires k <= |AllTransformations|
  {
    if k == 0 then []
    else
      var t := AllTransformations[k - 1];
      if Admitted(flags, supportsSwitch, kind, t) then AdmittedUpTo(k - 1, flags, supportsSwitch, kind) + [t]
      else AdmittedUpTo(k - 1, flags, supportsSwitch, kind)
  }

  /** The list `populateTransformations` builds. */
  function Admissible(flags: EnabledTransformations, supportsSwitch: bool, kind: ShaderKind): seq<Transformation>
  {
    AdmittedUpTo(|AllTransformations|, flags, supportsSwitch, kind)
  }

  /** `Rank` is the position in `AllTransformations`. */
  lemma RankIsPosition(t: Transformation)
    ensures AllTransformations[Rank(t)] == t
  {
  }

  lemma AllTransformationsRanked()
    ensures forall i :: 0 <= i < |AllTransformations| ==> Rank(AllTransformations[i]) == i
  {
  }

  lemma {:induction false} AdmittedUpToMembers(
    k: nat, flags: EnabledTransformations, supportsSwitch: bool, kind: ShaderKind)
    requires k <= |AllTransformations|
    ensures forall t :: t in AdmittedUpTo(k, flags, supportsSwitch, kind) <==>
                        Admitted(flags, supportsSwitch, kind, t) && Rank(t) < k
  {
    if k > 0 {
      AdmittedUpToMembers(k - 1, flags, supportsSwitch, kind);
      AllTransformationsRanked();
      forall t | Rank(t) == k - 1
        ensures t == AllTransformations[k - 1]
      {
        RankIsPosition(t);
      }
    }
  }

  lemma {:induction false} AdmittedUpToOrdered(
    k: nat, flags: EnabledTransformations, supportsSwitch: bool, kind: ShaderKind)
    requires k <= |AllTransformations|
    ensures forall i, j :: 0 <= i < j < |AdmittedUpTo(k, flags, supportsSwitch, kind)| ==>
              Rank(AdmittedUpTo(k, flags, supportsSwitch, kind)[i]) <
              Rank(AdmittedUpTo(k, flags, supportsSwitch, kind)[j])
  {
    if k > 0 {
      var r := AdmittedUpTo(k - 1, flags, supportsSwitch, kind);
      AdmittedUpToOrdered(k - 1, flags, supportsSwitch, kind);
      AdmittedUpToMembers(k - 1, flags, supportsSwitch, kind);
      AllTransformationsRanked();
      assert forall i :: 0 <= i < |r| ==> r[i] in r;
    }
  }

  /**
    * `populateTransformations` admits exactly the enabled transformations that
    * the language version and shader kind allow, each once, in the fixed order.
    */
  lemma AdmissibleExactly(flags: EnabledTransformations, supportsSwitch: bool, kind: ShaderKind)
    ensures forall t :: t in Admissible(flags, supportsSwitch, kind) <==> Admitted(flags, supportsSwitch, kind, t)
    ensures forall i, j :: 0 <= i < j < |Admissible(flags, supportsSwitch, kind)| ==>
              Rank(Admissible(flags, supportsSwitch, kind)[i]) < Rank(Admissible(flags, supportsSwitch, kind)[j])
    ensures Admissible(flags, supportsSwitch, kind) == [] <==> forall t :: !Admitted(flags, supportsSwitch, kind, t)
  {
    AdmittedUpToMembers(|AllTransformations|, flags, supportsSwitch, kind);
    AdmittedUpToOrdered(|AllTransformations|, flags, supportsSwitch, kind);
    var r := Admissible(flags, supportsSwitch, kind);
    if r != [] {
      assert r[0] in r;
    }
  }

  /**
    * `populateTransformations`: walks the transformations in their fixed
    * order and adds each one that is admitted; throws when none is.
    */
  function PopulateTransformations(flags: EnabledTransformations, supportsSwitch: bool, kind: ShaderKind)
    : (r: Result<seq<Transformation>, Error>)
    ensures r.Failure? <==> forall t :: !Admitted(flags, supportsSwitch, kind, t)
    ensures r.Failure? ==> r.error == NoTransformationEnabled
    ensures r.Success? ==> forall t :: t in r.value <==> Admitted(flags, supportsSwitch, kind, t)
    ensures r.Success? ==> forall i, j :: 0 <= i < j < |r.value| ==> Rank(r.value[i]) < Rank(r.value[j])
  {
    AdmissibleExactly(flags, supportsSwitch, kind);
    var result := Admissible(flags, supportsSwitch, kind);
    if result == [] then Failure(NoTransformationEnabled) else Success(result)
  }

  // ---------------------------------------------------------------------------
  // Selection loops
  // ---------------------------------------------------------------------------

  /** Drawing the element at `i` out of `s` leaves the rest of its multiset. */
  lemma TakeOut<T>(s: seq<T>, i: nat)
    requires i < |s|
    ensures multiset(Splice(s, i, [])) + multiset{s[i]} == multiset(s)
  {
    SpliceMultiset(s, i, []);
  }

  /** Moving `t` out of `from` (leaving `rest`) onto the end of `to` keeps their combined multiset. */
  lemma Moved<T>(from: seq<T>, t: T, rest: seq<T>, to: seq<T>)
    requires multiset(rest) + multiset{t} == multiset(from)
    ensures multiset(to + [t]) + multiset(rest) == multiset(to) + multiset(from)
  {
  }

  /** The elements of `xs` whose decision in `keep` is `true`, in order. */
  function Chosen<T>(xs: seq<T>, keep: seq<bool>): seq<T>
    requires |xs| == |keep|
  {
    if xs == [] then []
    else if keep[|keep| - 1] then Chosen(xs[..|xs| - 1], keep[..|keep| - 1]) + [xs[|xs| - 1]]
    else Chosen(xs[..|xs| - 1], keep[..|keep| - 1])
  }

  lemma ChosenSnoc<T>(xs: seq<T>, keep: seq<bool>, x: T, b: bool)
    requires |xs| == |keep|
    ensures Chosen(xs + [x], keep + [b]) == if b then Chosen(xs, keep) + [x] else Chosen(xs, keep)
  {
    assert (xs + [x])[..|xs|] == xs;
    assert (keep + [b])[..|keep|] == keep;
  }

  /** What is chosen is drawn from the candidates: a sub-multiset of them. */
  lemma {:induction false} ChosenSubMultiset<T>(xs: seq<T>, keep: seq<bool>)
    requires |xs| == |keep|
    ensures multiset(Chosen(xs, keep)) <= multiset(xs)
  {
    if xs != [] {
      var init := xs[..|xs| - 1];
      ChosenSubMultiset(init, keep[..|keep| - 1]);
      assert xs == init + [xs[|xs| - 1]];
    }
  }

  /** `list.remove(generator.nextInt(list.size()))`: draws one element out of `s`. */
  method RemoveRandom(s: seq<Transformation>, rng: Rng) returns (t: Transformation, rest: seq<Transformation>)
    requires s != []
    modifies rng
    ensures exists i :: 0 <= i < |s| && t == s[i] && rest == Splice(s, i, [])
    ensures multiset(rest) + multiset{t} == multiset(s)
    ensures |rest| == |s| - 1
  {
    var index := rng.NextInt(|s|);
    t := s[index];
    rest := Splice(s, index, []);
    TakeOut(s, index);
  }

  /**
    * `applyTransformationsRandomly`: draws each transformation out of the
    * populated list exactly once, in random order, and applies it when the
    * coin says so or when it is the last one and nothing has been applied
    * yet. `order` is the order of the draws and `decisions` whether each draw
    * was applied; the result is the applied transformations, in order.
    */
  method ApplyTransformationsRandomly(
    flags: EnabledTransformations, supportsSwitch: bool, kind: ShaderKind, rng: Rng)
    returns (r: Result<seq<Transformation>, Error>, ghost order: seq<Transformation>, ghost decisions: seq<bool>)
    modifies rng
    ensures r.Failure? <==> PopulateTransformations(flags, supportsSwitch, kind).Failure?
    ensures r.Failure? ==> r.error == NoTransformationEnabled
    ensures r.Success? ==>
              && multiset(order) == multiset(PopulateTransformations(flags, supportsSwitch, kind).value)
              && |decisions| == |order|
              && r.value == Chosen(order, decisions)
              && multiset(r.value) <= multiset(order)
              && |r.value| >= 1
  {
    var populated := PopulateTransformations(flags, supportsSwitch, kind);
    if populated.Failure? {
      return Failure(populated.error), [], [];
    }
    var transformations := populated.value;
    ghost var pool := transformations;
    var applied: seq<Transformation> := [];
    order, decisions := [], [];
    while transformations != []
      decreases |transformations|
      invariant multiset(order) + multiset(transformations) == multiset(pool)
      invariant |decisions| == |order| && applied == Chosen(order, decisions)
      invariant transformations == [] ==> |applied| > 0
    {
      var transformation, rest := RemoveRandom(transformations, rng);
      Moved(transformations, transformation, rest, order);
      transformations := rest;
      var apply := transformations == [] && |applied| == 0;
      if !apply {
        apply := rng.NextFloatBelowThreshold(|applied|);
      }
      ChosenSnoc(order, decisions, transformation, apply);
      if apply {
        applied := applied + [transformation];
      }
      order, decisions := order + [transformation], decisions + [apply];
    }
    ChosenSubMultiset(order, decisions);
    return Success(applied), order, decisions;
  }

  /**
    * The "keep roughly half" loop of the multi-pass mode: every candidate is
    * drawn out of the pool once and kept on a coin flip (switch statements
    * only one time in eight), except that a last candidate is always kept
    * when nothing has been kept yet. `drawn` is the order of the draws and
    * `decisions` whether each was kept.
    */
  method KeepRoughlyHalf(transformations: seq<Transformation>, rng: Rng)
    returns (toKeep: seq<Transformation>, ghost drawn: seq<Transformation>, ghost decisions: seq<bool>)
    modifies rng
    ensures multiset(drawn) == multiset(transformations)
    ensures |decisions| == |drawn| && toKeep == Chosen(drawn, decisions)
    ensures multiset(toKeep) <= multiset(transformations)
    ensures transformations != [] ==> toKeep != []
  {
    var pool := transformations;
    toKeep := [];
    drawn, decisions := [], [];
    while pool != []
      decreases |pool|
      invariant multiset(drawn) + multiset(pool) == multiset(transformations)
      invariant |decisions| == |drawn| && toKeep == Chosen(drawn, decisions)
      invariant transformations != [] ==> toKeep != [] || pool != []
    {
      var last := |pool| == 1 && toKeep == [];
      var candidate, rest := RemoveRandom(pool, rng);
      Moved(pool, candidate, rest, drawn);
      pool := rest;
      var keep: bool;
      if last {
        keep := true;
      } else if candidate == AddSwitchStmts {
        var roll := rng.NextInt(8);
        keep := roll == 0;
      } else {
        keep := rng.NextBoolean();
      }
      ChosenSnoc(drawn, decisions, candidate, keep);
      if keep {
        toKeep := toKeep + [candidate];
      }
      drawn, decisions := drawn + [candidate], decisions + [keep];
    }
    ChosenSubMultiset(drawn, decisions);
  }

  const MinNodes: nat := 5000
  const MaxNodes: nat := 22000

  /** The node limit `shaderLargeEnough` compares against, from a draw below `MaxNodes - MinNodes`. */
  function NodeLimit(draw: nat): (limit: nat)
    requires draw < MaxNodes - MinNodes
    ensures MinNodes <= limit < MaxNodes
  {
    draw + MinNodes
  }

  /** `shaderLargeEnough`: the shader has more nodes than a freshly drawn limit. */
  method ShaderLargeEnough(nodes: nat, rng: Rng) returns (large: bool, ghost limit: nat)
    modifies rng
    ensures MinNodes <= limit < MaxNodes
    ensures limit == MinNodes + rng.draws(old(rng.used)) % (MaxNodes - MinNodes)
    ensures large <==> nodes > limit
    ensures rng.used == old(rng.used) + 1
  {
    var draw := rng.NextInt(MaxNodes - MinNodes);
    var nodeLimit := NodeLimit(draw);
    limit := nodeLimit;
    large := nodes > nodeLimit;
  }

  /** The lists of `ss` joined end to end. */
  function Concat<T>(ss: seq<seq<T>>): seq<T>
  {
    if ss == [] then [] else Concat(ss[..|ss| - 1]) + ss[|ss| - 1]
  }

  lemma ConcatSnoc<T>(ss: seq<seq<T>>, s: seq<T>)
    ensures Concat(ss + [s]) == Concat(ss) + s
  {
    assert (ss + [s])[..|ss|] == ss;
  }

  /** Growing the last list grows the concatenation at its end. */
  lemma ConcatGrowLast<T>(ss: seq<seq<T>>, s: seq<T>, t: T)
    ensures Concat(ss + [s + [t]]) == Concat(ss + [s]) + [t]
  {
    ConcatSnoc(ss, s + [t]);
    ConcatSnoc(ss, s);
  }

  /** Starting a new, empty last list leaves the concatenation as it was. */
  lemma ConcatStartNew<T>(ss: seq<seq<T>>, s: seq<T>)
    ensures Concat(ss + [s] + [[]]) == Concat(ss + [s])
  {
    ConcatSnoc(ss + [s], []);
  }

  /**
    * One application of the multi-pass loop: `t` moves from the pool to
    * `done`, so together they still hold the kept transformations, and an
    * emptied pool means `done` holds all of them.
    */
  lemma PassStep<T>(pool: seq<T>, done: seq<T>, t: T, rest: seq<T>, kept: seq<T>)
    requires multiset(rest) + multiset{t} == multiset(pool)
    requires multiset(pool) + multiset(done) == multiset(kept)
    ensures multiset(rest) + multiset(done + [t]) == multiset(kept)
    ensures rest == [] ==> multiset(done + [t]) == multiset(kept)
  {
    assert multiset(done + [t]) == multiset(done) + multiset{t};
  }

  /** A completed pass joins the passes, each holding every kept transformation once. */
  lemma PassesExtend<T>(passes: seq<seq<T>>, done: seq<T>, kept: seq<T>)
    requires forall k :: 0 <= k < |passes| ==> multiset(passes[k]) == multiset(kept)
    requires multiset(done) == multiset(kept)
    ensures forall k :: 0 <= k < |passes + [done]| ==> multiset((passes + [done])[k]) == multiset(kept)
  {
  }

  /** While the pool is not empty, `done` lacks something kept. */
  lemma PassUnfinished<T>(pool: seq<T>, done: seq<T>, kept: seq<T>)
    requires pool != []
    requires multiset(pool) + multiset(done) == multiset(kept)
    ensures multiset(done) < multiset(kept)
  {
    assert pool[0] in multiset(pool);
    assert multiset(kept)[pool[0]] > multiset(done)[pool[0]];
  }

  /**
    * Before each of the first `n` applications the shader was not large
    * enough, so it had fewer nodes than any limit can reach.
    */
  predicate StayedSmall(nodes: nat -> nat, n: nat)
  {
    forall k :: 0 <= k < n ==> nodes(k) < MaxNodes
  }

  lemma StayedSmallStep(nodes: nat -> nat, n: nat)
    requires StayedSmall(nodes, n) && nodes(n) < MaxNodes
    ensures StayedSmall(nodes, n + 1)
  {
  }

  /**
    * `applyTransformationsMultiPass`: keeps roughly half of the enabled
    * transformations, then applies them one at a time, drawing each out of
    * the pool and moving it to `done`; an emptied pool is refilled from
    * `done`. So the applications come in passes, each applying every kept
    * transformation exactly once, followed by an unfinished pass. It stops
    * once the shader is large enough, or after `fuel` applications; `nodes(k)`
    * is the shader's node count after `k` applications.
    */
  method ApplyTransformationsMultiPass(
    flags: EnabledTransformations, supportsSwitch: bool, kind: ShaderKind, rng: Rng,
    nodes: nat -> nat, fuel: nat)
    returns (r: Result<seq<Transformation>, Error>,
             ghost kept: seq<Transformation>, ghost passes: seq<seq<Transformation>>, ghost partial: seq<Transformation>)
    modifies rng
    ensures r.Failure? <==> PopulateTransformations(flags, supportsSwitch, kind).Failure?
    ensures r.Failure? ==> r.error == NoTransformationEnabled
    ensures r.Success? ==>
              && multiset(kept) <= multiset(PopulateTransformations(flags, supportsSwitch, kind).value)
              && kept != []
              && r.value == Concat(passes) + partial
              && (forall k :: 0 <= k < |passes| ==> multiset(passes[k]) == multiset(kept))
              && multiset(partial) < multiset(kept)
              && |r.value| <= fuel
              && StayedSmall(nodes, |r.value|)
              && (|r.value| < fuel ==> nodes(|r.value|) > MinNodes)
  {
    var populated := PopulateTransformations(flags, supportsSwitch, kind);
    if populated.Failure? {
      return Failure(populated.error), [], [], [];
    }
    var candidates := populated.value;
    var toKeep, _, _ := KeepRoughlyHalf(candidates, rng);
    kept := toKeep;
    var transformations := toKeep;
    var done: seq<Transformation> := [];
    var applied: seq<Transformation> := [];
    passes := [];
    while |applied| < fuel
      invariant transformations != []
      invariant multiset(transformations) + multiset(done) == multiset(kept)
      invariant |applied| <= fuel
      invariant applied == Concat(passes + [done])
      invariant forall k :: 0 <= k < |passes| ==> multiset(passes[k]) == multiset(kept)
      invariant StayedSmall(nodes, |applied|)
    {
      var large, _ := ShaderLargeEnough(nodes(|applied|), rng);
      if large {
        break;
      }
      StayedSmallStep(nodes, |applied|);
      var transformation, rest := RemoveRandom(transformations, rng);
      PassStep(transformations, done, transformation, rest, kept);
      ConcatGrowLast(passes, done, transformation);
      transformations := rest;
      applied := applied + [transformation];
      done := done + [transformation];
      if transformations == [] {
        ConcatStartNew(passes, done);
        PassesExtend(passes, done, kept);
        passes := passes + [done];
        transformations := done;
        done := [];
      }
    }
    PassUnfinished(transformations, done, kept);
    ConcatSnoc(passes, done);
    return Success(applied), kept, passes, done;
  }

  /** The transformations `applyControlFlowComplication` picks from. */
  const ControlFlowTransformations: seq<Transformation> := [
    AddJumpStmts, OutlineStatements, AddWrappingConditionalStmts, AddSwitchStmts,
    AddDeadOutputVariableWrites, AddLiveOutputVariableWrites]

  /**
    * `applyControlFlowComplication`: between 3 and 7 iterations, each applying
    * one control-flow transformation picked at random (with repetition).
    */
  method ApplyControlFlowComplication(rng: Rng) returns (applied: seq<Transformation>)
    modifies rng
    ensures 3 <= |applied| <= 7
    ensures |applied| == 3 + rng.draws(old(rng.used)) % 5
    ensures forall t :: t in applied ==> t in ControlFlowTransformations
  {
    var transformations := ControlFlowTransformations;
    var minIterations := 3;
    var extra := rng.NextInt(5);
    var numIterations := minIterations + extra;
    applied := [];
    for i := 0 to numIterations
      invariant |applied| == i
      invariant forall t :: t in applied ==> t in ControlFlowTransformations
    {
      var k := rng.NextInt(|transformations|);
      applied := applied + [transformations[k]];
    }
  }

  // ---------------------------------------------------------------------------
  // Uniforms
  // ---------------------------------------------------------------------------

  /** The scalar kinds of uniforms that receive integer draws. */
  datatype ScalarKind = IntUniform | UIntUniform | BoolUniform

  /** `1 << 15`: the bound on randomised int and uint uniform values. */
  const IntUniformBound: nat := 32768

  /**
    * `randomiseUnsetUniforms`: each unset int or uint value is drawn from
    * `[0, 32768)` and each bool value from `{0, 1}`, in the order given.
    */
  method RandomiseUnsetUniforms(unset: seq<ScalarKind>, rng: Rng) returns (values: seq<nat>)
    modifies rng
    ensures |values| == |unset|
    ensures forall i :: 0 <= i < |unset| ==>
              values[i] < (if unset[i] == BoolUniform then 2 else IntUniformBound)
  {
    values := [];
    for i := 0 to |unset|
      invariant |values| == i
      invariant forall j :: 0 <= j < i ==>
                  values[j] < (if unset[j] == BoolUniform then 2 else IntUniformBound)
    {
      var v := rng.NextInt(if unset[i] == BoolUniform then 2 else IntUniformBound);
      values := values + [v];
    }
  }

  /** `Constants.INJECTION_SWITCH` */
  const InjectionSwitch: string := "injectionSwitch"

  /** `uniform vec2 injectionSwitch;` */
  const InjectionSwitchDeclaration: DeclKind :=
    VariablesDeclaration(QualifiedType([Uniform], BasicType("vec2")), [InjectionSwitch])

  /** `alreadyDeclaresInjectionSwitch` */
  function AlreadyDeclaresInjectionSwitch(tu: TranslationUnit): (b: bool)
    reads tu
    ensures b <==> exists i :: 0 <= i < |tu.topLevelDeclarations| &&
                     tu.topLevelDeclarations[i].kind.VariablesDeclaration? &&
                     InjectionSwitch in tu.topLevelDeclarations[i].kind.names
  {
    GlobalVarNamesMembers(Kinds(tu.topLevelDeclarations), InjectionSwitch);
    InjectionSwitch in GlobalVarNames(Kinds(tu.topLevelDeclarations))
  }

  /** The declarations once the injection switch is declared, added at the end if it was missing. */
  function WithInjectionSwitch(ks: seq<DeclKind>): seq<DeclKind>
  {
    if InjectionSwitch in GlobalVarNames(ks) then ks else ks + [InjectionSwitchDeclaration]
  }

  /** Adding the injection switch declares it, and doing it a second time changes nothing. */
  lemma WithInjectionSwitchIdempotent(ks: seq<DeclKind>)
    ensures InjectionSwitch in GlobalVarNames(WithInjectionSwitch(ks))
    ensures WithInjectionSwitch(WithInjectionSwitch(ks)) == WithInjectionSwitch(ks)
  {
    GlobalVarNamesAppend(ks, InjectionSwitchDeclaration);
  }

  /** `addInjectionSwitchIfNotPresent` */
  method AddInjectionSwitchIfNotPresent(tu: TranslationUnit)
    modifies tu
    ensures Kinds(tu.topLevelDeclarations) == WithInjectionSwitch(old(Kinds(tu.topLevelDeclarations)))
    ensures old(AlreadyDeclaresInjectionSwitch(tu)) ==>
              tu.topLevelDeclarations == old(tu.topLevelDeclarations)
    ensures !old(AlreadyDeclaresInjectionSwitch(tu)) ==>
              && |tu.topLevelDeclarations| == old(|tu.topLevelDeclarations|) + 1
              && tu.topLevelDeclarations[..old(|tu.topLevelDeclarations|)] == old(tu.topLevelDeclarations)
              && fresh(tu.topLevelDeclarations[old(|tu.topLevelDeclarations|)])
    ensures AlreadyDeclaresInjectionSwitch(tu)
    ensures tu.exprs == old(tu.exprs)
  {
    WithInjectionSwitchIdempotent(Kinds(tu.topLevelDeclarations));
    if AlreadyDeclaresInjectionSwitch(tu) {
      return;
    }
    var d := new Declaration(InjectionSwitchDeclaration);
    ghost var before := tu.topLevelDeclarations;
    tu.AddDeclaration(d);
    assert Kinds(before + [d]) == Kinds(before) + [InjectionSwitchDeclaration];
    assert (before + [d])[..|before|] == before;
  }
}
