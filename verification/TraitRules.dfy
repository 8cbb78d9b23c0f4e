/** What the prover answers for each kind of type, in terms of its answers for the parts. */
module TraitRules {
  import opened Wrappers
  import opened TraitTypes
  import opened TraitProver

  /** A part that is found comparable or hashable is found equatable. */
  lemma WayImplies(p: Program, t: Type, prop: Prop, way: Prop, env: Env, seen: set<Key>)
    requires way in Ways(prop) && Prov(p, t, way, env, seen)
    ensures Prov(p, t, prop, env, seen)
  {
    var w :| w in Ways(way) && (KeysOfWay(p, way, w); ProvOne(p, t, w, env, seen));
    assert w in Ways(prop);
    KeysOfWay(p, prop, w);
  }

  lemma OneImplies(p: Program, t: Type, prop: Prop, way: Prop, env: Env, seen: set<Key>)
    requires way in Ways(prop) && ProvOne(p, t, way, env, seen)
    ensures Prov(p, t, prop, env, seen)
  {
    KeysOfWay(p, prop, way);
  }

  /** A list or an option has every trait its element has, and has a default. */
  lemma ListsAndOptions(p: Program, t: Type, e: Type, prop: Prop, env: Env, seen: set<Key>)
    requires t == Type(false, Array(e)) || t == Type(false, Opt(e))
    ensures Prov(p, t, prop, env, seen) <==> prop == "Default" || Prov(p, e, prop, env, seen)
  {
    if Prov(p, t, prop, env, seen) {
      var way :| way in Ways(prop) && (KeysOfWay(p, prop, way); ProvOne(p, t, way, env, seen));
      if prop != "Default" {
        WayImplies(p, e, prop, way, env, seen);
      }
    }
    if prop == "Default" || Prov(p, e, prop, env, seen) {
      OneImplies(p, t, prop, prop, env, seen);
    }
  }

  /** A dictionary has a default, is neither ordered nor hashed, and has every other trait that its keys and its
      values have. */
  lemma Dictionaries(p: Program, k: Type, v: Type, prop: Prop, env: Env, seen: set<Key>)
    ensures Prov(p, Type(false, Dict(k, v)), prop, env, seen) <==>
            prop == "Default" || (prop != "Comparable" && prop != "Hashable"
                                  && Prov(p, k, prop, env, seen) && Prov(p, v, prop, env, seen))
  {
    var t := Type(false, Dict(k, v));
    if Prov(p, t, prop, env, seen) && prop != "Default" {
      var way :| way in Ways(prop) && (KeysOfWay(p, prop, way); ProvOne(p, t, way, env, seen));
      assert way == prop;
    }
    if prop == "Default" || (prop != "Comparable" && prop != "Hashable"
                             && Prov(p, k, prop, env, seen) && Prov(p, v, prop, env, seen)) {
      OneImplies(p, t, prop, prop, env, seen);
    }
  }

  /** A borrow has the traits of what it borrows. */
  lemma Borrows(p: Program, m: bool, e: Type, prop: Prop, env: Env, seen: set<Key>)
    ensures Prov(p, Type(false, Ref(m, e)), prop, env, seen) <==> Prov(p, e, prop, env, seen)
  {
    var t := Type(false, Ref(m, e));
    if Prov(p, t, prop, env, seen) {
      var way :| way in Ways(prop) && (KeysOfWay(p, prop, way); ProvOne(p, t, way, env, seen));
      WayImplies(p, e, prop, way, env, seen);
    }
    if Prov(p, e, prop, env, seen) {
      OneImplies(p, t, prop, prop, env, seen);
    }
  }

  /** A managed pointer can be copied and nothing else, whatever it points to; so can a raw pointer, a future and a
      closure. */
  lemma Pointers(p: Program, t: Type, prop: Prop, env: Env, seen: set<Key>)
    requires t.gc || t.kind.RawPointer? || t.kind.Future? || t.kind.Closure?
    ensures Prov(p, t, prop, env, seen) <==> prop == "Clone"
  {
    if Prov(p, t, prop, env, seen) {
      var way :| way in Ways(prop) && (KeysOfWay(p, prop, way); ProvOne(p, t, way, env, seen));
    }
    if prop == "Clone" {
      OneImplies(p, t, prop, prop, env, seen);
    }
  }

  predicate IsScalar(k: Kind) {
    k.Int? || k.Float? || k.Str? || k.Bool? || k.Unit?
  }

  /** What a scalar can do by itself. */
  predicate Does(k: Kind, prop: Prop) {
    || prop == "Clone" || prop == "Comparable" || prop == "Serializable" || prop == "Default" || prop == "Debug"
    || (prop == "Display" && !k.Unit?)
    || ((prop == "Equatable" || prop == "Hashable") && !k.Float?)
    || (prop in ["Add", "Sub", "Mul", "Div", "Rem"] && (k.Int? || k.Float?))
  }

  lemma TableNumbers(k: Kind, prop: Prop)
    requires k.Int? || k.Float?
    ensures Table(k, prop) <==> Does(k, prop)
  {
  }

  lemma TableOthers(k: Kind, prop: Prop)
    requires k.Str? || k.Bool? || k.Unit?
    ensures Table(k, prop) <==> Does(k, prop)
  {
  }

  lemma TableIs(k: Kind, prop: Prop)
    requires IsScalar(k)
    ensures Table(k, prop) <==> Does(k, prop)
  {
    if k.Int? || k.Float? {
      TableNumbers(k, prop);
    } else {
      TableOthers(k, prop);
    }
  }

  /** Integers can do everything; floating-point numbers are not hashed, and are equatable only because they are
      ordered; text, truth values and the unit do no arithmetic, and the unit is not shown. */
  lemma Scalars(p: Program, t: Type, prop: Prop, env: Env, seen: set<Key>)
    requires !t.gc && IsScalar(t.kind)
    ensures Prov(p, t, prop, env, seen) <==> prop == "Equatable" || Does(t.kind, prop)
  {
    if Prov(p, t, prop, env, seen) {
      var way :| way in Ways(prop) && (KeysOfWay(p, prop, way); ProvOne(p, t, way, env, seen));
      TableIs(t.kind, way);
    }
    if prop == "Equatable" || Does(t.kind, prop) {
      var way := if prop == "Equatable" then "Comparable" else prop;
      TableIs(t.kind, way);
      OneImplies(p, t, prop, way, env, seen);
    }
  }
}
