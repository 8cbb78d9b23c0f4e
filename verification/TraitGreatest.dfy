/** The trait rules over instances, their greatest fixed point, and the search against it. */
module TraitGreatest {
  import opened Wrappers
  import opened TraitTypes
  import opened TraitProver

  /** Declaration `n` with its arguments put in, asked for `prop`. */
  datatype Goal = Goal(n: string, variants: seq<seq<Type>>, prop: Prop)

  // ---- the rules ----

  /** `t` has `prop` when the instances have exactly the traits in `y`. */
  ghost predicate Has(p: Program, t: Type, prop: Prop, env: Env, y: iset<Goal>)
    decreases t, 1
  {
    exists way :: way in Ways(prop) && HasOne(p, t, way, env, y)
  }

  ghost predicate HasOne(p: Program, t: Type, prop: Prop, env: Env, y: iset<Goal>)
    decreases t, 0
  {
    if t.gc then prop == "Clone"
    else
      match t.kind
      case Array(e) => prop == "Default" || Has(p, e, prop, env, y)
      case Opt(e) => prop == "Default" || Has(p, e, prop, env, y)
      case Dict(k, v) =>
        prop == "Default"
        || (prop != "Comparable" && prop != "Hashable" && Has(p, k, prop, env, y) && Has(p, v, prop, env, y))
      case Ref(_, e) => Has(p, e, prop, env, y)
      case Generic(base, args) =>
        var d := Find(p, p.rt(base));
        d.Some? && Goal(p.rt(base), Instance(d.value, args), prop) in y
      case Custom(n) =>
        p.rt(n) != "Self"
        && var bounds := BoundsOf(p, env, n);
           var d := Find(p, p.rt(n));
           if bounds.Some? then Bounded(bounds.value, prop)
           else d.Some? && d.value.generics == [] && Goal(p.rt(n), d.value.variants, prop) in y
      case _ => Table(t.kind, prop)
  }

  ghost predicate HasAll(p: Program, fields: seq<Type>, prop: Prop, env: Env, y: iset<Goal>) {
    forall i :: 0 <= i < |fields| ==> Has(p, fields[i], prop, env, y)
  }

  /** The rule for an instance: every field of every variant. */
  ghost predicate Rule(p: Program, k: Goal, env: Env, y: iset<Goal>) {
    forall v :: v in k.variants ==> HasAll(p, v, k.prop, env, y)
  }

  // ---- the greatest fixed point, with assumptions ----

  ghost predicate Backed(p: Program, env: Env, seen: set<Goal>, y: iset<Goal>) {
    forall k :: k in y ==> k in seen || Rule(p, k, env, y)
  }

  /** All that can be held together, each backed by a rule on the rest or assumed in `seen`. */
  ghost function Greatest(p: Program, env: Env, seen: set<Goal>): iset<Goal> {
    iset k: Goal | Held(p, env, seen, k)
  }

  ghost predicate Held(p: Program, env: Env, seen: set<Goal>, k: Goal) {
    exists y: iset<Goal> :: Backed(p, env, seen, y) && k in y
  }

  lemma {:induction false} HasMore(p: Program, t: Type, prop: Prop, env: Env, y: iset<Goal>, z: iset<Goal>)
    requires y <= z && Has(p, t, prop, env, y)
    ensures Has(p, t, prop, env, z)
    decreases t, 1
  {
    var way :| way in Ways(prop) && HasOne(p, t, way, env, y);
    HasOneMore(p, t, way, env, y, z);
  }

  lemma {:induction false} HasOneMore(p: Program, t: Type, prop: Prop, env: Env, y: iset<Goal>, z: iset<Goal>)
    requires y <= z && HasOne(p, t, prop, env, y)
    ensures HasOne(p, t, prop, env, z)
    decreases t, 0
  {
    if !t.gc {
      match t.kind
      case Array(e) => if prop != "Default" { HasMore(p, e, prop, env, y, z); }
      case Opt(e) => if prop != "Default" { HasMore(p, e, prop, env, y, z); }
      case Dict(k, v) =>
        if prop != "Default" {
          HasMore(p, k, prop, env, y, z);
          HasMore(p, v, prop, env, y, z);
        }
      case Ref(_, e) => HasMore(p, e, prop, env, y, z);
      case _ =>
    }
  }

  lemma RuleMore(p: Program, k: Goal, env: Env, y: iset<Goal>, z: iset<Goal>)
    requires y <= z && Rule(p, k, env, y)
    ensures Rule(p, k, env, z)
  {
    forall v | v in k.variants ensures HasAll(p, v, k.prop, env, z) {
      assert HasAll(p, v, k.prop, env, y);
      forall i | 0 <= i < |v| ensures Has(p, v[i], k.prop, env, z) {
        HasMore(p, v[i], k.prop, env, y, z);
      }
    }
  }

  lemma GreatestHolds(p: Program, env: Env, seen: set<Goal>, y: iset<Goal>)
    requires Backed(p, env, seen, y)
    ensures y <= Greatest(p, env, seen)
  {
    assert forall k :: k in y ==> Held(p, env, seen, k);
  }

  /** It is itself held together. */
  lemma GreatestBacked(p: Program, env: Env, seen: set<Goal>)
    ensures Backed(p, env, seen, Greatest(p, env, seen))
  {
    var g := Greatest(p, env, seen);
    forall k | k in g ensures k in seen || Rule(p, k, env, g) {
      assert Held(p, env, seen, k);
      var y: iset<Goal> :| Backed(p, env, seen, y) && k in y;
      GreatestHolds(p, env, seen, y);
      if k !in seen {
        RuleMore(p, k, env, y, g);
      }
    }
  }

  /** Without assumptions it is a fixed point of the rules, and every other fixed point is in it. */
  lemma GreatestIsFixed(p: Program, env: Env, k: Goal)
    ensures k in Greatest(p, env, {}) <==> Rule(p, k, env, Greatest(p, env, {}))
  {
    var g := Greatest(p, env, {});
    GreatestBacked(p, env, {});
    if Rule(p, k, env, g) {
      var y := g + iset{k};
      forall m | m in y ensures Rule(p, m, env, y) {
        RuleMore(p, m, env, g, y);
      }
      GreatestHolds(p, env, {}, y);
    }
  }

  lemma AssumedIn(p: Program, env: Env, seen: set<Goal>, k: Goal)
    requires k in seen
    ensures k in Greatest(p, env, seen)
  {
    assert Backed(p, env, seen, iset{k});
    assert Held(p, env, seen, k);
  }

  lemma GreatestMore(p: Program, env: Env, seen: set<Goal>, k: Goal)
    ensures Greatest(p, env, seen) <= Greatest(p, env, seen + {k})
  {
    GreatestBacked(p, env, seen);
    GreatestHolds(p, env, seen + {k}, Greatest(p, env, seen));
  }

  /** The step of the search: an instance holds exactly if its rule does once it is assumed. */
  lemma Accumulate(p: Program, env: Env, seen: set<Goal>, k: Goal)
    requires k !in seen
    ensures k in Greatest(p, env, seen) <==> Rule(p, k, env, Greatest(p, env, seen + {k}))
  {
    var g, h := Greatest(p, env, seen), Greatest(p, env, seen + {k});
    GreatestBacked(p, env, seen);
    GreatestBacked(p, env, seen + {k});
    if k in g {
      GreatestMore(p, env, seen, k);
      RuleMore(p, k, env, g, h);
    }
    if Rule(p, k, env, h) {
      var y := h + iset{k};
      forall m | m in y ensures m in seen || Rule(p, m, env, y) {
        if m !in seen {
          RuleMore(p, m, env, h, y);
        }
      }
      GreatestHolds(p, env, seen, y);
    }
  }

  // ---- where the search is steady ----

  /** The instance under which each declaration on the way down was assumed. */
  type Path = map<Key, seq<seq<Type>>>

  function Goals(path: Path): set<Goal> {
    set k | k in path :: Goal(k.0, path[k], k.1)
  }

  /** The search from `t` in scope `env`, as far as it goes, never meets a declaration it has assumed
      with other arguments, and never looks a name up that the parameters of the declarations on the
      way have brought into scope since `env0`. */
  predicate Steady(p: Program, t: Type, prop: Prop, env0: Env, env: Env, path: Path)
    decreases |Keys(p, prop) - path.Keys|, Size(t), 1
  {
    forall i :: 0 <= i < |Ways(prop)| && NoEarlierWay(p, t, prop, env, path.Keys, i) ==>
      (KeysOfWay(p, prop, Ways(prop)[i]); SteadyOne(p, t, Ways(prop)[i], env0, env, path))
  }

  predicate NoEarlierWay(p: Program, t: Type, prop: Prop, env: Env, seen: set<Key>, i: nat)
    requires i <= |Ways(prop)|
  {
    forall j :: 0 <= j < i ==> !ProvOne(p, t, Ways(prop)[j], env, seen)
  }

  predicate SteadyOne(p: Program, t: Type, prop: Prop, env0: Env, env: Env, path: Path)
    decreases |Keys(p, prop) - path.Keys|, Size(t), 0
  {
    if t.gc then true
    else
      match t.kind
      case Array(e) => prop == "Default" || Steady(p, e, prop, env0, env, path)
      case Opt(e) => prop == "Default" || Steady(p, e, prop, env0, env, path)
      case Dict(k, v) =>
        prop == "Default" || prop == "Comparable" || prop == "Hashable"
        || (Steady(p, k, prop, env0, env, path)
            && (Prov(p, k, prop, env, path.Keys) ==> Steady(p, v, prop, env0, env, path)))
      case Ref(_, e) => Steady(p, e, prop, env0, env, path)
      case Generic(base, args) =>
        var b := p.rt(base);
        var d := Find(p, b);
        d.None? || SteadyDecl(p, b, Instance(d.value, args), prop, env0, Extend(env, d.value.generics), path)
      case Custom(n) =>
        var r := p.rt(n);
        var d := Find(p, r);
        r == "Self"
        || (BoundsOf(p, env, n) == BoundsOf(p, env0, n)
            && (BoundsOf(p, env, n).Some? || d.None? || d.value.generics != []
                || SteadyDecl(p, r, d.value.variants, prop, env0, env, path)))
      case _ => true
  }

  predicate SteadyDecl(p: Program, n: string, variants: seq<seq<Type>>, prop: Prop, env0: Env, env: Env, path: Path)
    requires n in Names(p)
    decreases |Keys(p, prop) - path.Keys|, 0, 1
  {
    if (n, prop) in path then path[(n, prop)] == variants
    else
      PathFewer(p, path, n, prop, variants);
      forall i :: 0 <= i < |variants| && AllBefore(p, variants, prop, env, path[(n, prop) := variants].Keys, i) ==>
        SteadyAll(p, variants[i], prop, env0, env, path[(n, prop) := variants])
  }

  lemma PathFewer(p: Program, path: Path, n: string, prop: Prop, variants: seq<seq<Type>>)
    requires n in Names(p) && (n, prop) !in path
    ensures |Keys(p, prop) - path[(n, prop) := variants].Keys| < |Keys(p, prop) - path.Keys|
  {
    KeyMore(path, (n, prop), variants);
    OneFewer(Keys(p, prop), path.Keys, (n, prop));
  }

  lemma KeyMore(path: Path, k: Key, variants: seq<seq<Type>>)
    ensures path[k := variants].Keys == path.Keys + {k}
  {
  }

  predicate AllBefore(p: Program, variants: seq<seq<Type>>, prop: Prop, env: Env, seen: set<Key>, i: nat)
    requires i <= |variants|
  {
    forall j :: 0 <= j < i ==> ProvAll(p, variants[j], prop, env, seen)
  }

  predicate FieldsBefore(p: Program, fields: seq<Type>, prop: Prop, env: Env, seen: set<Key>, i: nat)
    requires i <= |fields|
  {
    forall j :: 0 <= j < i ==> Prov(p, fields[j], prop, env, seen)
  }

  predicate SteadyAll(p: Program, fields: seq<Type>, prop: Prop, env0: Env, env: Env, path: Path)
    decreases |Keys(p, prop) - path.Keys|, SizeAll(fields)
  {
    forall i :: 0 <= i < |fields| && FieldsBefore(p, fields, prop, env, path.Keys, i) ==>
      (SizeIn(fields, i); Steady(p, fields[i], prop, env0, env, path))
  }

  // ---- the search ----

  /** Where it is steady, the search answers true exactly on the greatest fixed point over instances. */
  lemma {:induction false} ProvIsHas(p: Program, t: Type, prop: Prop, env0: Env, env: Env, path: Path)
    requires Steady(p, t, prop, env0, env, path)
    ensures Prov(p, t, prop, env, path.Keys) <==> Has(p, t, prop, env0, Greatest(p, env0, Goals(path)))
    decreases |Keys(p, prop) - path.Keys|, Size(t), 1
  {
    var ws, g := Ways(prop), Greatest(p, env0, Goals(path));
    forall i: nat | i < |ws| && NoEarlierWay(p, t, prop, env, path.Keys, i)
      ensures ProvOne(p, t, ws[i], env, path.Keys) <==> HasOne(p, t, ws[i], env0, g)
    {
      KeysOfWay(p, prop, ws[i]);
      ProvOneIsHas(p, t, ws[i], env0, env, path);
    }
    WaysAgree(p, t, prop, env0, env, path, g);
  }

  lemma WaysAgree(p: Program, t: Type, prop: Prop, env0: Env, env: Env, path: Path, g: iset<Goal>)
    requires forall i: nat :: i < |Ways(prop)| && NoEarlierWay(p, t, prop, env, path.Keys, i) ==>
               (ProvOne(p, t, Ways(prop)[i], env, path.Keys) <==> HasOne(p, t, Ways(prop)[i], env0, g))
    ensures Prov(p, t, prop, env, path.Keys) <==> Has(p, t, prop, env0, g)
  {
    var ws := Ways(prop);
    if Prov(p, t, prop, env, path.Keys) {
      var i := FirstWay(p, t, prop, env, path.Keys);
      assert ws[i] in ws;
    } else {
      forall i: nat | i < |ws| ensures !HasOne(p, t, ws[i], env0, g) {
        assert forall j: nat :: j <= i ==> ws[j] in ws;
        assert NoEarlierWay(p, t, prop, env, path.Keys, i);
      }
    }
  }

  lemma FirstWay(p: Program, t: Type, prop: Prop, env: Env, seen: set<Key>) returns (i: nat)
    requires Prov(p, t, prop, env, seen)
    ensures i < |Ways(prop)| && ProvOne(p, t, Ways(prop)[i], env, seen) && NoEarlierWay(p, t, prop, env, seen, i)
  {
    var ws := Ways(prop);
    var k :| 0 <= k < |ws| && ProvOne(p, t, ws[k], env, seen);
    i := 0;
    while !ProvOne(p, t, ws[i], env, seen)
      invariant i <= k && NoEarlierWay(p, t, prop, env, seen, i)
      decreases k - i
    {
      i := i + 1;
    }
  }

  lemma {:induction false} ProvOneIsHas(p: Program, t: Type, prop: Prop, env0: Env, env: Env, path: Path)
    requires SteadyOne(p, t, prop, env0, env, path)
    ensures ProvOne(p, t, prop, env, path.Keys) <==> HasOne(p, t, prop, env0, Greatest(p, env0, Goals(path)))
    decreases |Keys(p, prop) - path.Keys|, Size(t), 0
  {
    if !t.gc {
      match t.kind
      case Array(e) => if prop != "Default" { ProvIsHas(p, e, prop, env0, env, path); }
      case Opt(e) => if prop != "Default" { ProvIsHas(p, e, prop, env0, env, path); }
      case Dict(k, v) => ProvDictIsHas(p, t, prop, env0, env, path, k, v);
      case Ref(_, e) => ProvIsHas(p, e, prop, env0, env, path);
      case Generic(base, args) =>
        var d := Find(p, p.rt(base));
        if d.Some? {
          ProvDeclIsIn(p, p.rt(base), Instance(d.value, args), prop, env0, Extend(env, d.value.generics), path);
        }
      case Custom(n) =>
        var d := Find(p, p.rt(n));
        if p.rt(n) != "Self" && BoundsOf(p, env, n).None? && d.Some? && d.value.generics == [] {
          ProvDeclIsIn(p, p.rt(n), d.value.variants, prop, env0, env, path);
        }
      case _ =>
    }
  }

  lemma {:induction false} ProvDictIsHas(p: Program, t: Type, prop: Prop, env0: Env, env: Env, path: Path, k: Type,
                                         v: Type)
    requires SteadyOne(p, t, prop, env0, env, path) && !t.gc && t.kind == Dict(k, v)
    ensures ProvOne(p, t, prop, env, path.Keys) <==> HasOne(p, t, prop, env0, Greatest(p, env0, Goals(path)))
    decreases |Keys(p, prop) - path.Keys|, Size(k) + Size(v), 2
  {
    if prop != "Default" && prop != "Comparable" && prop != "Hashable" {
      ProvIsHas(p, k, prop, env0, env, path);
      if Prov(p, k, prop, env, path.Keys) {
        ProvIsHas(p, v, prop, env0, env, path);
      }
    }
  }

  lemma GoalsMore(path: Path, k: Key, variants: seq<seq<Type>>)
    requires k !in path
    ensures Goals(path[k := variants]) == Goals(path) + {Goal(k.0, variants, k.1)}
    ensures Goal(k.0, variants, k.1) !in Goals(path) && path[k := variants].Keys == path.Keys + {k}
  {
  }

  lemma {:induction false} ProvDeclIsIn(p: Program, n: string, variants: seq<seq<Type>>, prop: Prop, env0: Env,
                                        env: Env, path: Path)
    requires n in Names(p) && SteadyDecl(p, n, variants, prop, env0, env, path)
    ensures ProvDecl(p, n, variants, prop, env, path.Keys)
            <==> Goal(n, variants, prop) in Greatest(p, env0, Goals(path))
    decreases |Keys(p, prop) - path.Keys|, 0, 1
  {
    var k, goal := (n, prop), Goal(n, variants, prop);
    if k in path {
      assert goal in Goals(path);
      AssumedIn(p, env0, Goals(path), goal);
    } else {
      OneFewer(Keys(p, prop), path.Keys, k);
      GoalsMore(path, k, variants);
      Accumulate(p, env0, Goals(path), goal);
      var path' := path[k := variants];
      var g := Greatest(p, env0, Goals(path'));
      forall i: nat | i < |variants| && AllBefore(p, variants, prop, env, path'.Keys, i)
        ensures ProvAll(p, variants[i], prop, env, path'.Keys) <==> HasAll(p, variants[i], prop, env0, g)
      {
        ProvAllIsHas(p, variants[i], prop, env0, env, path');
      }
      VariantsAgree(p, variants, prop, env0, env, path'.Keys, g);
    }
  }

  lemma VariantsAgree(p: Program, variants: seq<seq<Type>>, prop: Prop, env0: Env, env: Env, seen: set<Key>,
                      g: iset<Goal>)
    requires forall i: nat :: i < |variants| && AllBefore(p, variants, prop, env, seen, i) ==>
               (ProvAll(p, variants[i], prop, env, seen) <==> HasAll(p, variants[i], prop, env0, g))
    ensures (forall v :: v in variants ==> ProvAll(p, v, prop, env, seen))
            <==> (forall v :: v in variants ==> HasAll(p, v, prop, env0, g))
  {
    var i := 0;
    while i < |variants| && ProvAll(p, variants[i], prop, env, seen)
      invariant i <= |variants| && AllBefore(p, variants, prop, env, seen, i)
      invariant forall j: nat :: j < i ==> HasAll(p, variants[j], prop, env0, g)
    {
      i := i + 1;
    }
    if i < |variants| {
      assert variants[i] in variants;
    }
  }

  lemma FieldsAgree(p: Program, fields: seq<Type>, prop: Prop, env0: Env, env: Env, seen: set<Key>, g: iset<Goal>)
    requires forall i: nat :: i < |fields| && FieldsBefore(p, fields, prop, env, seen, i) ==>
               (Prov(p, fields[i], prop, env, seen) <==> Has(p, fields[i], prop, env0, g))
    ensures FieldsBefore(p, fields, prop, env, seen, |fields|) <==> HasAll(p, fields, prop, env0, g)
  {
    var i := 0;
    while i < |fields| && Prov(p, fields[i], prop, env, seen)
      invariant i <= |fields| && FieldsBefore(p, fields, prop, env, seen, i)
      invariant forall j: nat :: j < i ==> Has(p, fields[j], prop, env0, g)
    {
      i := i + 1;
    }
  }

  lemma {:induction false} ProvAllIsHas(p: Program, fields: seq<Type>, prop: Prop, env0: Env, env: Env, path: Path)
    requires SteadyAll(p, fields, prop, env0, env, path)
    ensures ProvAll(p, fields, prop, env, path.Keys) <==> HasAll(p, fields, prop, env0, Greatest(p, env0, Goals(path)))
    decreases |Keys(p, prop) - path.Keys|, SizeAll(fields)
  {
    var g := Greatest(p, env0, Goals(path));
    forall i: nat | i < |fields| && FieldsBefore(p, fields, prop, env, path.Keys, i)
      ensures Prov(p, fields[i], prop, env, path.Keys) <==> Has(p, fields[i], prop, env0, g)
    {
      SizeIn(fields, i);
      ProvIsHas(p, fields[i], prop, env0, env, path);
    }
    FieldsAgree(p, fields, prop, env0, env, path.Keys, g);
  }

  /** The whole search: where it is steady, it is the coinductive reading of the rules. */
  lemma SearchIsGreatest(p: Program, t: Type, prop: Prop, env: Env)
    requires Steady(p, t, prop, env, env, map[])
    ensures Prov(p, t, prop, env, {}) <==> Has(p, t, prop, env, Greatest(p, env, {}))
  {
    var none: Path := map[];
    assert Goals(none) == {} && none.Keys == {};
    ProvIsHas(p, t, prop, env, env, none);
  }

  /** What can be derived holds together: when an instance is found to have a trait, so is every one of
      its fields, if neither search meets a declaration again with other arguments. */
  lemma FieldsFollow(p: Program, n: string, variants: seq<seq<Type>>, prop: Prop, env: Env, inner: Env,
                     v: seq<Type>, f: Type)
    requires n in Names(p) && v in variants && f in v
    requires SteadyDecl(p, n, variants, prop, env, inner, map[]) && Steady(p, f, prop, env, env, map[])
    requires ProvDecl(p, n, variants, prop, inner, {})
    ensures Prov(p, f, prop, env, {})
  {
    var none: Path := map[];
    assert Goals(none) == {} && none.Keys == {};
    ProvDeclIsIn(p, n, variants, prop, env, inner, none);
    GreatestIsFixed(p, env, Goal(n, variants, prop));
    assert HasAll(p, v, prop, env, Greatest(p, env, {}));
    SearchIsGreatest(p, f, prop, env);
  }

  // ---- programs without parameters ----

  predicate NonGeneric(p: Program) {
    && (forall n :: n in p.structs ==> p.structs[n].generics == [])
    && (forall n :: n in p.enums ==> p.enums[n].generics == [])
  }

  /** Every declaration was assumed as it is declared. */
  predicate AsDeclared(p: Program, path: Path) {
    forall k :: k in path ==> Find(p, k.0).Some? && path[k] == Find(p, k.0).value.variants
  }

  lemma PlainInstance(d: Decl, args: seq<Type>)
    requires d.generics == []
    ensures Instance(d, args) == d.variants
  {
    forall i | 0 <= i < |d.variants| ensures Instance(d, args)[i] == d.variants[i] {
      SubstNoneAll(d.variants[i]);
    }
  }

  lemma {:induction false} PlainIsSteady(p: Program, t: Type, prop: Prop, env: Env, path: Path)
    requires NonGeneric(p) && AsDeclared(p, path)
    ensures Steady(p, t, prop, env, env, path)
    decreases |Keys(p, prop) - path.Keys|, Size(t), 1
  {
    forall i: nat | i < |Ways(prop)| ensures SteadyOne(p, t, Ways(prop)[i], env, env, path) {
      KeysOfWay(p, prop, Ways(prop)[i]);
      PlainIsSteadyOne(p, t, Ways(prop)[i], env, path);
    }
  }

  lemma {:induction false} PlainIsSteadyOne(p: Program, t: Type, prop: Prop, env: Env, path: Path)
    requires NonGeneric(p) && AsDeclared(p, path)
    ensures SteadyOne(p, t, prop, env, env, path)
    decreases |Keys(p, prop) - path.Keys|, Size(t), 0
  {
    if !t.gc {
      match t.kind
      case Array(e) => PlainIsSteady(p, e, prop, env, path);
      case Opt(e) => PlainIsSteady(p, e, prop, env, path);
      case Dict(k, v) =>
        PlainIsSteady(p, k, prop, env, path);
        PlainIsSteady(p, v, prop, env, path);
      case Ref(_, e) => PlainIsSteady(p, e, prop, env, path);
      case Generic(base, args) =>
        var d := Find(p, p.rt(base));
        if d.Some? {
          PlainInstance(d.value, args);
          PlainIsSteadyDecl(p, p.rt(base), prop, env, path);
        }
      case Custom(n) =>
        if Find(p, p.rt(n)).Some? {
          PlainIsSteadyDecl(p, p.rt(n), prop, env, path);
        }
      case _ =>
    }
  }

  lemma {:induction false} PlainIsSteadyDecl(p: Program, n: string, prop: Prop, env: Env, path: Path)
    requires NonGeneric(p) && AsDeclared(p, path) && Find(p, n).Some?
    ensures SteadyDecl(p, n, Find(p, n).value.variants, prop, env, env, path)
    decreases |Keys(p, prop) - path.Keys|, 0, 1
  {
    var k, vs := (n, prop), Find(p, n).value.variants;
    if k !in path {
      PathFewer(p, path, n, prop, vs);
      forall i: nat | i < |vs| ensures SteadyAll(p, vs[i], prop, env, env, path[k := vs]) {
        PlainIsSteadyAll(p, vs[i], prop, env, path[k := vs]);
      }
    }
  }

  lemma {:induction false} PlainIsSteadyAll(p: Program, fields: seq<Type>, prop: Prop, env: Env, path: Path)
    requires NonGeneric(p) && AsDeclared(p, path)
    ensures SteadyAll(p, fields, prop, env, env, path)
    decreases |Keys(p, prop) - path.Keys|, SizeAll(fields)
  {
    forall i: nat | i < |fields| ensures Steady(p, fields[i], prop, env, env, path) {
      SizeIn(fields, i);
      PlainIsSteady(p, fields[i], prop, env, path);
    }
  }

  /** Without parameters every search is steady, so the fields always follow. */
  lemma PlainFieldsFollow(p: Program, n: string, prop: Prop, v: seq<Type>, f: Type)
    requires NonGeneric(p) && Find(p, n).Some? && v in Find(p, n).value.variants && f in v
    requires ProvDecl(p, n, Find(p, n).value.variants, prop, map[], {})
    ensures Prov(p, f, prop, map[], {})
  {
    PlainIsSteadyDecl(p, n, prop, map[], map[]);
    PlainIsSteady(p, f, prop, map[], map[]);
    FieldsFollow(p, n, Find(p, n).value.variants, prop, map[], map[], v, f);
  }

  // ---- generic declarations ----

  const RAW: Type := Type(false, RawPointer)
  const BOXES: Program := Program(map["Box" := Decl([Param("T", [])], [[Type(false, Custom("T"))]])], map[], n => n)

  function BoxOf(t: Type): Type {
    Type(false, Generic("Box", [t]))
  }

  /** The assumption is kept under the declaration's name alone, so with parameters the field can
      fail where the whole succeeds: a box of a box of a raw pointer is found Equatable, its one field,
      a box of a raw pointer, is not.  The search meets `Box` again with another argument, which is
      what `Steady` rules out. */
  lemma GenericFieldsDoNotFollow()
    ensures Prov(BOXES, BoxOf(BoxOf(RAW)), "Equatable", map[], {})
    ensures !Prov(BOXES, BoxOf(RAW), "Equatable", map[], {})
    ensures Instance(BOXES.structs["Box"], [BoxOf(RAW)]) == [[BoxOf(RAW)]]
    ensures !SteadyOne(BOXES, BoxOf(BoxOf(RAW)), "Equatable", map[], map[], map[])
  {
    BoxUnsteady();
    BoxOne(BoxOf(RAW), "Equatable");
    assert ("Box", "Equatable") in {("Box", "Equatable")};
    InnerAssumed("Equatable");
    assert "Equatable" in Ways("Equatable");
    forall way | way in Ways("Equatable") ensures !ProvOne(BOXES, BoxOf(RAW), way, map[], {}) {
      BoxOne(RAW, way);
      RawFails(way);
    }
  }

  lemma BoxUnsteady()
    ensures !SteadyOne(BOXES, BoxOf(BoxOf(RAW)), "Equatable", map[], map[], map[])
  {
    var prop, env, none := "Equatable", map["T" := []], map[];
    BoxOne(BoxOf(RAW), prop);
    BoxOne(RAW, prop);
    var outer: seq<seq<Type>> := [[BoxOf(RAW)]];
    var path: Path := map[("Box", prop) := outer];
    assert Extend(map[], BOXES.structs["Box"].generics) == env;
    assert Extend(env, BOXES.structs["Box"].generics) == env;
    assert !SteadyDecl(BOXES, "Box", [[RAW]], prop, map[], env, path);
    assert !SteadyOne(BOXES, BoxOf(RAW), prop, map[], env, path);
    assert NoEarlierWay(BOXES, BoxOf(RAW), prop, env, path.Keys, 0);
    assert Ways(prop)[0] == prop;
    assert !Steady(BOXES, BoxOf(RAW), prop, map[], env, path);
    assert FieldsBefore(BOXES, [BoxOf(RAW)], prop, env, path.Keys, 0);
    assert !SteadyAll(BOXES, [BoxOf(RAW)], prop, map[], env, path);
    assert AllBefore(BOXES, outer, prop, env, path.Keys, 0);
    assert none[("Box", prop) := outer] == path;
    assert !SteadyDecl(BOXES, "Box", outer, prop, map[], env, none);
  }

  lemma BoxOne(t: Type, prop: Prop)
    ensures Instance(BOXES.structs["Box"], [t]) == [[t]]
    ensures ProvOne(BOXES, BoxOf(t), prop, map[], {}) <==> Prov(BOXES, t, prop, map["T" := []], {("Box", prop)})
  {
    var d := BOXES.structs["Box"];
    var sub := Pair(d.generics, [t]);
    assert d.generics == [Param("T", [])] && d.generics[..0] == [];
    assert Pair([], []) == map[];
    assert sub == map["T" := t];
    assert SubstAll(d.variants[0], sub) == [t];
    assert Instance(d, [t]) == [[t]];
    assert Extend(map[], d.generics) == map["T" := []];
    assert {} + {("Box", prop)} == {("Box", prop)};
    var now := {("Box", prop)};
    assert ProvAll(BOXES, [t], prop, map["T" := []], now) <==> Prov(BOXES, t, prop, map["T" := []], now);
  }

  lemma InnerAssumed(prop: Prop)
    ensures Prov(BOXES, BoxOf(RAW), prop, map["T" := []], {("Box", prop)})
  {
    assert prop in Ways(prop);
    assert ProvOne(BOXES, BoxOf(RAW), prop, map["T" := []], {("Box", prop)});
  }

  lemma RawFails(prop: Prop)
    requires prop != "Clone"
    ensures !Prov(BOXES, RAW, prop, map["T" := []], {("Box", prop)})
  {
  }
}
