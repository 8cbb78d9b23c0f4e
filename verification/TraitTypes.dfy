/** Aero types and declarations as the structural trait prover sees them, and instances of
    declarations. */
module TraitTypes {
  import opened Wrappers

  type Prop = string
  type Key = (string, Prop)

  datatype Type = Type(gc: bool, kind: Kind)

  datatype Kind =
    | Int
    | Float
    | Str
    | Bool
    | Unit
    | RawPointer
    | Array(elem: Type)
    | Dict(key: Type, val: Type)
    | Future(out: Type)
    | Opt(elem: Type)
    | Ref(mutable: bool, inner: Type)
    | Closure(params: seq<Type>, ret: Type)
    | Custom(name: string)
    | Generic(base: string, args: seq<Type>)

  datatype Param = Param(name: string, bounds: seq<Prop>)

  /** A struct is a declaration with one variant. */
  datatype Decl = Decl(generics: seq<Param>, variants: seq<seq<Type>>)

  /** `rt` resolves a name as written to its global name. */
  datatype Program = Program(structs: map<string, Decl>, enums: map<string, Decl>, rt: string -> string)

  type Env = map<string, seq<Prop>>

  function Find(p: Program, n: string): Option<Decl> {
    if n in p.structs then Some(p.structs[n]) else if n in p.enums then Some(p.enums[n]) else None
  }

  /** Which built-in types have which traits. */
  predicate Table(k: Kind, prop: Prop) {
    match k
    case Int => prop in ["Clone", "Equatable", "Comparable", "Hashable", "Serializable", "Add", "Sub", "Mul", "Div",
                         "Rem", "Default", "Display", "Debug"]
    case Float => prop in ["Clone", "Comparable", "Serializable", "Add", "Sub", "Mul", "Div", "Rem", "Default",
                           "Display", "Debug"]
    case Str => prop in ["Clone", "Equatable", "Comparable", "Hashable", "Serializable", "Default", "Display", "Debug"]
    case Bool => prop in ["Clone", "Equatable", "Comparable", "Hashable", "Serializable", "Default", "Display", "Debug"]
    case Unit => prop in ["Clone", "Equatable", "Comparable", "Hashable", "Serializable", "Default", "Debug"]
    case _ => prop == "Clone"
  }

  /** Equatable follows from itself, from Comparable and from Hashable; every other trait from itself. */
  function Ways(prop: Prop): (w: seq<Prop>)
    ensures prop in w
  {
    if prop == "Equatable" then ["Equatable", "Comparable", "Hashable"] else [prop]
  }

  /** What the bounds of a type parameter say. */
  predicate Bounded(bounds: seq<Prop>, prop: Prop) {
    prop in bounds || (prop == "Equatable" && ("Comparable" in bounds || "Hashable" in bounds))
  }

  function BoundsOf(p: Program, env: Env, n: string): Option<seq<Prop>> {
    if p.rt(n) in env then Some(env[p.rt(n)]) else if n in env then Some(env[n]) else None
  }

  // ---- instantiation ----

  /** `generics.zip(args)` */
  function Pair(gs: seq<Param>, args: seq<Type>): map<string, Type> {
    if gs == [] || args == [] then map[]
    else
      var n := if |gs| < |args| then |gs| else |args|;
      Pair(gs[..n - 1], args[..n - 1])[gs[n - 1].name := args[n - 1]]
  }

  /** The bounds of parameters not yet in scope. */
  function Extend(env: Env, gs: seq<Param>): Env {
    if gs == [] then env
    else
      var e := Extend(env, gs[..|gs| - 1]);
      var g := gs[|gs| - 1];
      if g.name in e then e else e[g.name := g.bounds]
  }

  function Subst(t: Type, sub: map<string, Type>): Type {
    match t.kind
    case Custom(n) => if n in sub then sub[n].(gc := t.gc || sub[n].gc) else t
    case Generic(base, args) => Type(t.gc, Generic(base, SubstAll(args, sub)))
    case Array(e) => Type(t.gc, Array(Subst(e, sub)))
    case Dict(k, v) => Type(t.gc, Dict(Subst(k, sub), Subst(v, sub)))
    case Future(e) => Type(t.gc, Future(Subst(e, sub)))
    case Opt(e) => Type(t.gc, Opt(Subst(e, sub)))
    case Ref(m, e) => Type(t.gc, Ref(m, Subst(e, sub)))
    case Closure(ps, r) => Type(t.gc, Closure(SubstAll(ps, sub), Subst(r, sub)))
    case _ => t
  }

  function SubstAll(ts: seq<Type>, sub: map<string, Type>): (r: seq<Type>)
    ensures |r| == |ts|
  {
    if ts == [] then [] else [Subst(ts[0], sub)] + SubstAll(ts[1..], sub)
  }

  /** Nothing is substituted without parameters. */
  lemma {:induction false} SubstNone(t: Type)
    ensures Subst(t, map[]) == t
  {
    match t.kind
    case Generic(_, args) => SubstNoneAll(args);
    case Array(e) => SubstNone(e);
    case Dict(k, v) =>
      SubstNone(k);
      SubstNone(v);
    case Future(e) => SubstNone(e);
    case Opt(e) => SubstNone(e);
    case Ref(_, e) => SubstNone(e);
    case Closure(ps, r) =>
      SubstNoneAll(ps);
      SubstNone(r);
    case _ =>
  }

  lemma {:induction false} SubstNoneAll(ts: seq<Type>)
    ensures SubstAll(ts, map[]) == ts
  {
    if ts != [] {
      SubstNone(ts[0]);
      SubstNoneAll(ts[1..]);
    }
  }

  // ---- what substituting leaves ----

  /** The types a type is made of. */
  function Parts(t: Type): seq<Type> {
    match t.kind
    case Array(e) => [e]
    case Dict(k, v) => [k, v]
    case Future(e) => [e]
    case Opt(e) => [e]
    case Ref(_, e) => [e]
    case Closure(ps, r) => ps + [r]
    case Generic(_, args) => args
    case _ => []
  }

  /** Equal but for what they are made of. */
  predicate SameOutside(t: Type, u: Type) {
    t.gc == u.gc && |Parts(t)| == |Parts(u)|
    && match t.kind
       case Array(_) => u.kind.Array?
       case Dict(_, _) => u.kind.Dict?
       case Future(_) => u.kind.Future?
       case Opt(_) => u.kind.Opt?
       case Ref(m, _) => u.kind.Ref? && u.kind.mutable == m
       case Closure(_, _) => u.kind.Closure?
       case Generic(b, _) => u.kind.Generic? && u.kind.base == b
       case _ => u == t
  }

  /** The type at a position: which part, which part of that, and so on. */
  function Under(t: Type, path: seq<nat>): Option<Type> {
    if path == [] then Some(t)
    else if path[0] < |Parts(t)| then Under(Parts(t)[path[0]], path[1..]) else None
  }

  predicate IsParam(t: Type, sub: map<string, Type>) {
    t.kind.Custom? && t.kind.name in sub
  }

  lemma {:induction false} SubstAllAt(ts: seq<Type>, sub: map<string, Type>, i: nat)
    requires i < |ts|
    ensures SubstAll(ts, sub)[i] == Subst(ts[i], sub)
  {
    if i > 0 {
      SubstAllAt(ts[1..], sub, i - 1);
    }
  }

  lemma SubstParts(t: Type, sub: map<string, Type>)
    requires !IsParam(t, sub)
    ensures SameOutside(t, Subst(t, sub)) && SameOutside(Subst(t, sub), t)
    ensures forall i :: 0 <= i < |Parts(t)| ==> Parts(Subst(t, sub))[i] == Subst(Parts(t)[i], sub)
  {
    forall i | 0 <= i < |Parts(t)| ensures Parts(Subst(t, sub))[i] == Subst(Parts(t)[i], sub) {
      match t.kind
      case Generic(_, args) => SubstAllAt(args, sub, i);
      case Closure(ps, _) => if i < |ps| { SubstAllAt(ps, sub, i); }
      case _ =>
    }
  }

  /** At every position of a type, however deep: a parameter has become its argument, managed if either was, and
      anything else is what it was but for its parts. */
  lemma {:induction false} SubstAt(t: Type, sub: map<string, Type>, path: seq<nat>)
    requires Under(t, path).Some?
    ensures var u, r := Under(t, path).value, Under(Subst(t, sub), path);
            r.Some? && if IsParam(u, sub) then r.value == sub[u.kind.name].(gc := u.gc || sub[u.kind.name].gc)
                       else SameOutside(r.value, u)
    decreases |path|
  {
    if path != [] {
      SubstParts(t, sub);
      SubstAt(Parts(t)[path[0]], sub, path[1..]);
    } else if !IsParam(t, sub) {
      SubstParts(t, sub);
    }
  }

  /** The declaration's variants with the arguments put in. */
  function Instance(d: Decl, args: seq<Type>): seq<seq<Type>> {
    seq(|d.variants|, i requires 0 <= i < |d.variants| => SubstAll(d.variants[i], Pair(d.generics, args)))
  }

  // ---- termination ----

  /** Depth down to a declaration. */
  function Size(t: Type): (n: nat)
    ensures n > 0
  {
    match t.kind
    case Array(e) => 1 + Size(e)
    case Opt(e) => 1 + Size(e)
    case Dict(k, v) => 1 + Size(k) + Size(v)
    case Ref(_, e) => 1 + Size(e)
    case _ => 1
  }

  function SizeAll(ts: seq<Type>): (n: nat) {
    if ts == [] then 0 else 1 + Size(ts[0]) + SizeAll(ts[1..])
  }

  lemma {:induction false} SizeIn(ts: seq<Type>, i: nat)
    requires i < |ts|
    ensures Size(ts[i]) < SizeAll(ts)
  {
    if i > 0 {
      SizeIn(ts[1..], i - 1);
    }
  }

  function Names(p: Program): set<string> {
    p.structs.Keys + p.enums.Keys
  }

  /** All keys a proof of `prop` can assume. */
  function Keys(p: Program, prop: Prop): set<Key> {
    set n, q | n in Names(p) && q in {prop, "Equatable", "Comparable", "Hashable"} :: (n, q)
  }

  lemma KeysOfWay(p: Program, prop: Prop, way: Prop)
    requires way in Ways(prop)
    ensures Keys(p, way) == Keys(p, prop)
  {
    assert {way, "Equatable", "Comparable", "Hashable"} == {prop, "Equatable", "Comparable", "Hashable"};
  }

  lemma OneFewer(all: set<Key>, seen: set<Key>, k: Key)
    requires k in all && k !in seen
    ensures |all - (seen + {k})| < |all - seen|
  {
    assert all - seen == (all - (seen + {k})) + {k};
  }
}
