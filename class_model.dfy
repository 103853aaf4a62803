/**
 * Classes, their members and data types, and the parts of the netlist the
 * randomize passes walk.
 *
 * A class is identified by a number; its declaration records the class it
 * extends (if any), whether some class extends it (AstClass::isExtended),
 * and its members in declaration order. Walking a class and its ancestors
 * (`classp = classp->extendsp()->classp()`) only ends when the inheritance
 * relation has no cycle; `ChainOk` states that with a depth certificate:
 * every base is deeper than 0 and shallower than the classes extending it.
 */
module Classes {
  import opened Wrappers
  import opened Bits
  import opened GenAst
  import opened ConstraintExpr

  type ClassId = nat

  /** The data types members can have; RefDType is a typedef. */
  datatype DType =
    | BasicDType(width: nat)
      /** An enum with its base width and its items' values in declaration order. */
    | EnumDType(id: nat, width: nat, items: seq<Num>)
      /** A packed struct of the given total width. */
    | StructDType(width: nat, members: seq<MemberDType>)
    | RefDType(target: DType)
    | ClassRefDType(cls: ClassId)
    | OtherDType(name: string, width: nat)

  /** A struct member: its bit offset within the struct and its type. */
  datatype MemberDType = MemberDType(lsb: nat, dtype: DType)

  /**
   * skipRefp: the type with typedefs removed; an enum stands for its base
   * type (AstEnumDType::skipRefp goes on to subDTypep), which keeps its width.
   */
  function SkipRef(d: DType): (r: DType)
    ensures !r.RefDType? && !r.EnumDType?
    ensures !d.RefDType? && !d.EnumDType? ==> r == d
    ensures d.EnumDType? ==> r == BasicDType(d.width)
    ensures Width(r) == Width(d)
  {
    if d.RefDType? then SkipRef(d.target)
    else if d.EnumDType? then BasicDType(d.width)
    else d
  }

  /** A type that names an enum, directly or through typedefs. */
  predicate IsEnum(d: DType) {
    d.EnumDType? || (d.RefDType? && IsEnum(d.target))
  }

  /** An enum, however it is named, stands for a basic type of its own width. */
  lemma {:induction false} EnumSkipsToBase(d: DType)
    requires IsEnum(d)
    ensures SkipRef(d) == BasicDType(Width(d))
  {
    if d.RefDType? {
      EnumSkipsToBase(d.target);
    }
  }

  /** subDTypep: what a typedef names, and the base type of an enum; other types have none. */
  function SubDType(d: DType): (r: Option<DType>)
    ensures d.RefDType? ==> r == Some(d.target)
    ensures d.EnumDType? ==> r == Some(BasicDType(d.width))
    ensures !d.RefDType? && !d.EnumDType? ==> r.None?
  {
    match d
    case RefDType(t) => Some(t)
    case EnumDType(_, w, _) => Some(BasicDType(w))
    case _ => None
  }

  /** The bit width of a type (a class handle has none here). */
  function Width(d: DType): nat {
    match d
    case BasicDType(w) => w
    case EnumDType(_, w, _) => w
    case StructDType(w, _) => w
    case RefDType(t) => Width(t)
    case ClassRefDType(_) => 0
    case OtherDType(_, w) => w
  }

  datatype Member =
    | VarMember(v: VarId, name: string, isRand: bool, dtype: DType)
      /** A `constraint` block and its conditions. */
    | ConstraintMember(name: string, conds: seq<CExpr>)
    | FuncMember(f: Func)
    | OtherMember(name: string)

  function MemberName(m: Member): string {
    match m
    case VarMember(_, n, _, _) => n
    case ConstraintMember(n, _) => n
    case FuncMember(f) => f.name
    case OtherMember(n) => n
  }

  datatype ClassDecl = ClassDecl(base: Option<ClassId>, extended: bool, members: seq<Member>)

  type ClassTable = map<ClassId, ClassDecl>

  /** findMember: the first member with the given name. */
  function FindMember(ms: seq<Member>, name: string): (r: Option<Member>)
    ensures r.Some? ==> r.value in ms && MemberName(r.value) == name
    ensures r.None? ==> forall i :: 0 <= i < |ms| ==> MemberName(ms[i]) != name
  {
    if ms == [] then None
    else if MemberName(ms[0]) == name then Some(ms[0])
    else FindMember(ms[1..], name)
  }

  /** Every base class exists and the depth certificate decreases from a class to its base. */
  predicate ChainOk(cs: ClassTable, depth: map<ClassId, nat>) {
    forall c :: c in cs ==> LinkOk(cs, depth, c)
  }

  /** Class c is declared, and so is its base, at a smaller depth. */
  predicate LinkOk(cs: ClassTable, depth: map<ClassId, nat>, c: ClassId) {
    c in cs && c in depth &&
    (cs[c].base.Some? ==> cs[c].base.value in cs && cs[c].base.value in depth && depth[cs[c].base.value] < depth[c])
  }

  /** A class followed by its ancestors, nearest first. */
  function Chain(cs: ClassTable, depth: map<ClassId, nat>, c: ClassId): (r: seq<ClassId>)
    requires ChainOk(cs, depth) && c in cs
    ensures |r| >= 1 && r[0] == c
    ensures forall i :: 0 <= i < |r| ==> r[i] in cs
    decreases depth[c]
  {
    assert LinkOk(cs, depth, c);
    if cs[c].base.Some? then [c] + Chain(cs, depth, cs[c].base.value) else [c]
  }

  /** Adding members to classes leaves the inheritance relation, hence the chain, as it was. */
  lemma {:induction false} ChainSameBases(cs: ClassTable, cs': ClassTable, depth: map<ClassId, nat>, c: ClassId)
    requires ChainOk(cs, depth) && c in cs
    requires cs'.Keys == cs.Keys && forall d :: d in cs ==> cs'[d].base == cs[d].base
    ensures ChainOk(cs', depth) && Chain(cs', depth, c) == Chain(cs, depth, c)
    decreases depth[c]
  {
    assert LinkOk(cs, depth, c);
    if cs[c].base.Some? {
      ChainSameBases(cs, cs', depth, cs[c].base.value);
    }
  }

  // ----- The netlist -----

  /** The object a method is called on: a variable reference, or any other expression; with its type. */
  datatype Receiver = VarRecv(v: VarId, dtype: DType) | OtherRecv(dtype: DType)

  /**
   * The kinds of node the passes distinguish. A call carries its name,
   * receiver and pins (the `with` constraints of `randomize() with {...}`);
   * FuncRefKind is what replaces a rewritten call; FuncKind is a function
   * added to a module.
   */
  datatype NodeKind =
    | ModuleKind
    | ClassKind(cls: ClassId)
    | CallKind(name: string, recv: Receiver, pins: seq<Member>)
    | FuncRefKind(name: string)
    | FuncKind(f: Func)
    | OtherKind

  /** A netlist node and its children in order. */
  datatype Node = Node(kind: NodeKind, kids: seq<Node>)
}
