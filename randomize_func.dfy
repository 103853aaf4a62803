/**
 * Find-or-create of a class's `randomize` method, shared by
 * V3Randomize::newRandomizeFunc and RandomizeMethodVisitor::declareIn, and
 * how a class table grows while the passes add such methods and fill them.
 */
module RandomizeFunc {
  import opened Wrappers
  import opened GenAst
  import opened Classes

  const RandomizeName: string := "randomize"

  /** Position of the first member with the given name (findMember), or the number of members. */
  function FindIndex(ms: seq<Member>, name: string): (i: nat)
    ensures i <= |ms|
    ensures i < |ms| ==> MemberName(ms[i]) == name
    ensures forall j :: 0 <= j < i ==> MemberName(ms[j]) != name
  {
    if ms == [] then 0
    else if MemberName(ms[0]) == name then 0
    else 1 + FindIndex(ms[1..], name)
  }

  /** The position is where findMember's member sits. */
  lemma {:induction false} FindIndexIsFindMember(ms: seq<Member>, name: string)
    ensures FindMember(ms, name) == if FindIndex(ms, name) < |ms| then Some(ms[FindIndex(ms, name)]) else None
  {
    if ms != [] && MemberName(ms[0]) != name {
      FindIndexIsFindMember(ms[1..], name);
    }
  }

  /** The method find-or-create adds: `int randomize()` (32 bits, signed), a class method with no statements yet. */
  function FreshRandomize(isVirtual: bool): Func {
    Func(RandomizeName, 32, true, isVirtual, true, [])
  }

  /** `VN_CAST(findMember("randomize"), Func)` succeeds: the first member so named is a function. */
  predicate HasOwnRandomize(d: ClassDecl) {
    var i := FindIndex(d.members, RandomizeName);
    i < |d.members| && d.members[i].FuncMember?
  }

  /** Where the method find-or-create returns sits among the class's members. */
  function RandomizeSlot(d: ClassDecl): nat {
    if HasOwnRandomize(d) then FindIndex(d.members, RandomizeName) else |d.members|
  }

  /** The class after find-or-create; `isVirtual` is the flag a created method gets. */
  function WithRandomize(d: ClassDecl, isVirtual: bool): ClassDecl {
    if HasOwnRandomize(d) then d
    else ClassDecl(d.base, d.extended, d.members + [FuncMember(FreshRandomize(isVirtual))])
  }

  /** Class `d` with `more` appended to the statements of the function at `slot` (addStmtsp). */
  function AppendBody(d: ClassDecl, slot: nat, more: seq<Stmt>): ClassDecl
    requires slot < |d.members| && d.members[slot].FuncMember?
  {
    var f := d.members[slot].f;
    ClassDecl(d.base, d.extended,
              d.members[slot := FuncMember(Func(f.name, f.retWidth, f.signed, f.isVirtual, f.classMethod, f.body + more))])
  }

  /** Some member is a function named `randomize`. */
  ghost predicate Declares(d: ClassDecl) {
    exists i :: 0 <= i < |d.members| && d.members[i].FuncMember? && d.members[i].f.name == RandomizeName
  }

  /**
   * Find-or-create: the returned slot holds a function named `randomize`; an
   * existing one leaves the class unchanged, otherwise exactly one method is
   * appended, 32-bit signed, a class method, with the given virtual flag, and
   * nothing else about the class changes.
   */
  lemma FindOrCreate(d: ClassDecl, isVirtual: bool)
    ensures var r := WithRandomize(d, isVirtual);
            var i := RandomizeSlot(d);
            i < |r.members| && r.members[i].FuncMember? && r.members[i].f.name == RandomizeName &&
            r.base == d.base && r.extended == d.extended && r.members[..|d.members|] == d.members &&
            (HasOwnRandomize(d) ==> r == d) &&
            (!HasOwnRandomize(d) ==> |r.members| == |d.members| + 1 && i == |d.members| &&
                                     r.members[i] == FuncMember(Func(RandomizeName, 32, true, isVirtual, true, [])))
  {
    var r := WithRandomize(d, isVirtual);
    assert r.members[..|d.members|] == d.members;
  }

  /**
   * A second find-or-create returns the same method and adds nothing, as
   * long as the first member named `randomize` (if any) is a function.
   */
  lemma FindOrCreateIdempotent(d: ClassDecl, v: bool, v': bool)
    requires FindIndex(d.members, RandomizeName) < |d.members| ==> HasOwnRandomize(d)
    ensures HasOwnRandomize(WithRandomize(d, v))
    ensures WithRandomize(WithRandomize(d, v), v') == WithRandomize(d, v)
    ensures RandomizeSlot(WithRandomize(d, v)) == RandomizeSlot(d)
  {
    if !HasOwnRandomize(d) {
      var ms := d.members + [FuncMember(FreshRandomize(v))];
      FindIndexAppend(d.members, FuncMember(FreshRandomize(v)), RandomizeName);
      assert FindIndex(ms, RandomizeName) == |d.members|;
    }
  }

  lemma {:induction false} FindIndexAppend(ms: seq<Member>, m: Member, name: string)
    requires FindIndex(ms, name) == |ms|
    ensures FindIndex(ms + [m], name) == if MemberName(m) == name then |ms| else |ms| + 1
  {
    if ms != [] {
      assert (ms + [m])[1..] == ms[1..] + [m];
      FindIndexAppend(ms[1..], m, name);
    }
  }

  /**
   * When the first member named `randomize` is not a function, the cast
   * fails every time: each find-or-create appends another method.
   */
  lemma ShadowedRandomizeGrows(d: ClassDecl, v: bool)
    requires FindIndex(d.members, RandomizeName) < |d.members| && !HasOwnRandomize(d)
    ensures !HasOwnRandomize(WithRandomize(d, v))
    ensures |WithRandomize(WithRandomize(d, v), v).members| == |d.members| + 2
  {
    var ms := d.members + [FuncMember(FreshRandomize(v))];
    FindIndexPrefix(d.members, [FuncMember(FreshRandomize(v))], RandomizeName);
  }

  lemma {:induction false} FindIndexPrefix(ms: seq<Member>, tail: seq<Member>, name: string)
    requires FindIndex(ms, name) < |ms|
    ensures FindIndex(ms + tail, name) == FindIndex(ms, name)
  {
    if MemberName(ms[0]) != name {
      assert (ms + tail)[1..] == ms[1..] + tail;
      FindIndexPrefix(ms[1..], tail, name);
    }
  }

  // ----- How the class table grows -----

  /** A member as the passes may change it: a function keeps its name and may get statements; others stay. */
  predicate Refines(a: Member, b: Member) {
    if a.FuncMember? then b.FuncMember? && b.f.name == a.f.name else b == a
  }

  /** A class after the passes: same base and flags, members refined, functions appended. */
  predicate DeclGrown(d: ClassDecl, d': ClassDecl) {
    d'.base == d.base && d'.extended == d.extended && |d.members| <= |d'.members| &&
    (forall i {:trigger Refines(d.members[i], d'.members[i])} :: 0 <= i < |d.members| ==> Refines(d.members[i], d'.members[i])) &&
    (forall i :: |d.members| <= i < |d'.members| ==> d'.members[i].FuncMember?)
  }

  predicate Grown(cs: ClassTable, cs': ClassTable) {
    cs'.Keys == cs.Keys && forall c {:trigger DeclGrown(cs[c], cs'[c])} :: c in cs ==> DeclGrown(cs[c], cs'[c])
  }

  lemma GrownTrans(a: ClassTable, b: ClassTable, c: ClassTable)
    requires Grown(a, b) && Grown(b, c)
    ensures Grown(a, c)
  {
    forall k | k in a
      ensures DeclGrown(a[k], c[k])
    {
      assert DeclGrown(a[k], b[k]) && DeclGrown(b[k], c[k]);
      var x, y, z := a[k].members, b[k].members, c[k].members;
      forall i | 0 <= i < |x|
        ensures Refines(x[i], z[i])
      {
        assert Refines(x[i], y[i]) && Refines(y[i], z[i]);
      }
      forall i | |x| <= i < |z|
        ensures z[i].FuncMember?
      {
        if i < |y| {
          assert y[i].FuncMember? && Refines(y[i], z[i]);
        }
      }
    }
  }

  lemma WithRandomizeGrown(d: ClassDecl, v: bool)
    ensures DeclGrown(d, WithRandomize(d, v))
  {
  }

  /** Filling in a function's statements keeps its name and grows its class. */
  lemma FillGrown(d: ClassDecl, i: nat, f: Func)
    requires i < |d.members| && d.members[i].FuncMember? && f.name == d.members[i].f.name
    ensures DeclGrown(d, ClassDecl(d.base, d.extended, d.members[i := FuncMember(f)]))
  {
  }

  /** A method once declared stays declared. */
  lemma DeclaresGrown(d: ClassDecl, d': ClassDecl)
    requires Declares(d) && DeclGrown(d, d')
    ensures Declares(d')
  {
    var i :| 0 <= i < |d.members| && d.members[i].FuncMember? && d.members[i].f.name == RandomizeName;
    assert Refines(d.members[i], d'.members[i]);
  }

  /** Inheritance is untouched, so every chain stays the same. */
  lemma GrownChain(cs: ClassTable, cs': ClassTable, depth: map<ClassId, nat>, c: ClassId)
    requires ChainOk(cs, depth) && Grown(cs, cs') && c in cs
    ensures ChainOk(cs', depth) && Chain(cs', depth, c) == Chain(cs, depth, c)
  {
    forall d | d in cs ensures cs'[d].base == cs[d].base {
      assert DeclGrown(cs[d], cs'[d]);
    }
    ChainSameBases(cs, cs', depth, c);
  }
}
