/** `provable` and `provable_one`: the search with its set of assumptions, shared by all branches
    and restored by each. */
module TraitProver {
  import opened Wrappers
  import opened TraitTypes

  /** The search as a function. */
  predicate Prov(p: Program, t: Type, prop: Prop, env: Env, seen: set<Key>)
    decreases |Keys(p, prop) - seen|, Size(t), 1
  {
    exists way :: way in Ways(prop) && (KeysOfWay(p, prop, way); ProvOne(p, t, way, env, seen))
  }

  predicate ProvOne(p: Program, t: Type, prop: Prop, env: Env, seen: set<Key>)
    decreases |Keys(p, prop) - seen|, Size(t), 0
  {
    if t.gc then prop == "Clone"
    else
      match t.kind
      case Array(e) => prop == "Default" || Prov(p, e, prop, env, seen)
      case Opt(e) => prop == "Default" || Prov(p, e, prop, env, seen)
      case Dict(k, v) =>
        prop == "Default"
        || (prop != "Comparable" && prop != "Hashable" && Prov(p, k, prop, env, seen) && Prov(p, v, prop, env, seen))
      case Ref(_, e) => Prov(p, e, prop, env, seen)
      case Generic(base, args) =>
        var b := p.rt(base);
        var d := Find(p, b);
        d.Some? && ProvDecl(p, b, Instance(d.value, args), prop, Extend(env, d.value.generics), seen)
      case Custom(n) =>
        var r := p.rt(n);
        var bounds := BoundsOf(p, env, n);
        if r == "Self" then false
        else if bounds.Some? then Bounded(bounds.value, prop)
        else
          var d := Find(p, r);
          d.Some? && d.value.generics == [] && ProvDecl(p, r, d.value.variants, prop, env, seen)
      case _ => Table(t.kind, prop)
  }

  /** Declaration `n` has the trait if that is assumed already, or if all its fields have it, assuming
      it of the declaration itself. */
  predicate ProvDecl(p: Program, n: string, variants: seq<seq<Type>>, prop: Prop, env: Env, seen: set<Key>)
    requires n in Names(p)
    decreases |Keys(p, prop) - seen|, 0, 1
  {
    (n, prop) in seen
    || (OneFewer(Keys(p, prop), seen, (n, prop));
        forall v :: v in variants ==> ProvAll(p, v, prop, env, seen + {(n, prop)}))
  }

  predicate ProvAll(p: Program, fields: seq<Type>, prop: Prop, env: Env, seen: set<Key>)
    decreases |Keys(p, prop) - seen|, SizeAll(fields)
  {
    forall i :: 0 <= i < |fields| ==> (SizeIn(fields, i); Prov(p, fields[i], prop, env, seen))
  }

  class Prover {
    var seen: set<Key>
    const p: Program

    method Provable(t: Type, prop: Prop, env: Env) returns (r: bool)
      modifies this`seen
      ensures seen == old(seen) && r == Prov(p, t, prop, env, seen)
      decreases |Keys(p, prop) - seen|, Size(t), 1
    {
      var ways := Ways(prop);
      var i := 0;
      r := false;
      while i < |ways|
        invariant i <= |ways| && seen == old(seen) && !r
        invariant forall j :: 0 <= j < i ==> !ProvOne(p, t, ways[j], env, seen)
      {
        KeysOfWay(p, prop, ways[i]);
        r := ProvableOne(t, ways[i], env);
        if r {
          return;
        }
        i := i + 1;
      }
    }

    method ProvableOne(t: Type, prop: Prop, env: Env) returns (r: bool)
      modifies this`seen
      ensures seen == old(seen) && r == ProvOne(p, t, prop, env, seen)
      decreases |Keys(p, prop) - seen|, Size(t), 0
    {
      if t.gc {
        return prop == "Clone";
      }
      match t.kind {
        case Array(e) =>
          if prop == "Default" {
            return true;
          }
          r := Provable(e, prop, env);
        case Opt(e) =>
          if prop == "Default" {
            return true;
          }
          r := Provable(e, prop, env);
        case Dict(k, v) =>
          if prop == "Default" {
            return true;
          }
          if prop == "Comparable" || prop == "Hashable" {
            return false;
          }
          r := Provable(k, prop, env);
          if r {
            r := Provable(v, prop, env);
          }
        case Ref(_, e) =>
          r := Provable(e, prop, env);
        case Generic(base, args) =>
          var b := p.rt(base);
          var d := Find(p, b);
          if d.None? {
            return false;
          }
          r := ProvableDecl(b, Instance(d.value, args), prop, Extend(env, d.value.generics));
        case Custom(n) =>
          r := ProvableCustom(n, prop, env);
        case _ =>
          r := Table(t.kind, prop);
      }
    }

    method ProvableCustom(n: string, prop: Prop, env: Env) returns (r: bool)
      modifies this`seen
      ensures seen == old(seen) && r == ProvOne(p, Type(false, Custom(n)), prop, env, seen)
      decreases |Keys(p, prop) - seen|, 0, 2
    {
      var g := p.rt(n);
      if g == "Self" {
        return false;
      }
      var bounds := BoundsOf(p, env, n);
      if bounds.Some? {
        return Bounded(bounds.value, prop);
      }
      var d := Find(p, g);
      if d.None? || d.value.generics != [] {
        return false;
      }
      r := ProvableDecl(g, d.value.variants, prop, env);
    }

    method ProvableDecl(n: string, variants: seq<seq<Type>>, prop: Prop, env: Env) returns (r: bool)
      requires n in Names(p)
      modifies this`seen
      ensures seen == old(seen) && r == ProvDecl(p, n, variants, prop, env, seen)
      decreases |Keys(p, prop) - seen|, 0, 1
    {
      if (n, prop) in seen {
        return true;
      }
      OneFewer(Keys(p, prop), seen, (n, prop));
      ghost var was := seen;
      seen := seen + {(n, prop)};
      ghost var now := seen;
      r := true;
      var i := 0;
      while i < |variants| && r
        invariant i <= |variants| && seen == now
        invariant r ==> forall k :: 0 <= k < i ==> ProvAll(p, variants[k], prop, env, now)
        invariant !r ==> exists v :: v in variants && !ProvAll(p, v, prop, env, now)
      {
        r := ProvableAll(variants[i], prop, env);
        assert variants[i] in variants;
        i := i + 1;
      }
      seen := seen - {(n, prop)};
      assert seen == was;
    }

    method ProvableAll(fields: seq<Type>, prop: Prop, env: Env) returns (r: bool)
      modifies this`seen
      ensures seen == old(seen) && r == ProvAll(p, fields, prop, env, seen)
      decreases |Keys(p, prop) - seen|, SizeAll(fields)
    {
      r := true;
      var i := 0;
      while i < |fields| && r
        invariant i <= |fields| && seen == old(seen)
        invariant r ==> forall j :: 0 <= j < i ==> Prov(p, fields[j], prop, env, seen)
        invariant !r ==> exists j :: 0 <= j < |fields| && !Prov(p, fields[j], prop, env, seen)
      {
        SizeIn(fields, i);
        r := Provable(fields[i], prop, env);
        i := i + 1;
      }
    }
  }
}
