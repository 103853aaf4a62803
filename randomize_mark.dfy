/**
 * The marking pass that runs before randomize() methods are synthesized:
 * which classes need a randomize() method.
 *
 * A class needs one when `randomize` is called on a handle of that class,
 * when a class that needs one has a `rand` member whose declared type is a
 * handle of it (composition), or when it extends a class that needs one
 * (a derived object may stand behind a base handle). V3Randomize walks the
 * members of a class and of all its ancestors; V3RandomizeMethod walks the
 * class's own members only. `Hierarchy.ancestors` selects between the two.
 *
 * The pass records base-to-derived links while it walks the netlist and
 * marks along composition links at once (markMembers, markDerived); at the
 * end it follows the derived links out of every marked base
 * (markAllDerived). Neither recursion checks whether a class is already
 * marked, so both only end when composition and inheritance together have
 * no cycle: `RankOk` states that as a rank certificate, which also serves
 * as the termination measure.
 */
module RandomizeMark {
  import opened Wrappers
  import opened Classes

  /** The class table, the depth certificate of its inheritance chains, and whether ancestors' members are walked. */
  datatype Hierarchy = Hierarchy(cs: ClassTable, depth: map<ClassId, nat>, ancestors: bool)

  /** A rand member whose declared type is a class handle; a typedef of a class type is not looked through. */
  predicate IsRandClassRef(m: Member) {
    m.VarMember? && m.isRand && m.dtype.ClassRefDType?
  }

  /** The classes of the rand class-handle members of a member list. */
  function RandRefs(ms: seq<Member>): (r: set<ClassId>)
    ensures forall i :: 0 <= i < |ms| && IsRandClassRef(ms[i]) ==> ms[i].dtype.cls in r
    decreases |ms|
  {
    if ms == [] then {}
    else
      var last := ms[|ms| - 1];
      RandRefs(ms[..|ms| - 1]) + (if IsRandClassRef(last) then {last.dtype.cls} else {})
  }

  /** The classes of the rand class-handle members of every class of a list. */
  function ChainRefs(cs: ClassTable, walk: seq<ClassId>): (r: set<ClassId>)
    requires forall i :: 0 <= i < |walk| ==> walk[i] in cs
    ensures forall i :: 0 <= i < |walk| ==> RandRefs(cs[walk[i]].members) <= r
    decreases |walk|
  {
    if walk == [] then {}
    else ChainRefs(cs, walk[..|walk| - 1]) + RandRefs(cs[walk[|walk| - 1]].members)
  }

  /** The classes whose members markMembers looks at when it starts from c. */
  function Walked(h: Hierarchy, c: ClassId): (r: seq<ClassId>)
    requires ChainOk(h.cs, h.depth) && c in h.cs
    ensures |r| >= 1 && r[0] == c && forall i :: 0 <= i < |r| ==> r[i] in h.cs
    ensures !h.ancestors ==> r == [c]
  {
    if h.ancestors then Chain(h.cs, h.depth, c) else [c]
  }

  /** The classes markMembers(c) marks itself (before following them further). */
  /** One more class of the walk adds the classes of its rand handles. */
  lemma ChainRefsSnoc(cs: ClassTable, walk: seq<ClassId>, k: nat)
    requires k < |walk| && forall i :: 0 <= i < |walk| ==> walk[i] in cs
    ensures ChainRefs(cs, walk[..k + 1]) == ChainRefs(cs, walk[..k]) + RandRefs(cs[walk[k]].members)
  {
    assert walk[..k + 1][..k] == walk[..k];
  }

  lemma ChainRefsWhole(cs: ClassTable, walk: seq<ClassId>)
    requires forall i :: 0 <= i < |walk| ==> walk[i] in cs
    ensures ChainRefs(cs, walk[..|walk|]) == ChainRefs(cs, walk)
  {
    assert walk[..|walk|] == walk;
  }

  function CompTargets(h: Hierarchy, c: ClassId): set<ClassId>
    requires ChainOk(h.cs, h.depth) && c in h.cs
  {
    ChainRefs(h.cs, Walked(h, c))
  }

  /** The classes that extend b directly. */
  function DerivedOf(cs: ClassTable, b: ClassId): set<ClassId> {
    set d | d in cs && cs[d].base == Some(b)
  }

  /** The derived classes a base-to-derived map holds for b. */
  function Recorded(dm: map<ClassId, set<ClassId>>, b: ClassId): set<ClassId> {
    if b in dm then dm[b] else {}
  }

  /** Inheritance chains end, and every rand class handle names a declared class. */
  predicate HierarchyOk(h: Hierarchy) {
    ChainOk(h.cs, h.depth) && forall c {:trigger CompTargets(h, c)} :: c in h.cs ==> CompTargets(h, c) <= h.cs.Keys
  }

  /** A rank that falls along every composition and every base-to-derived link: no cycle through either. */
  ghost predicate RankOk(h: Hierarchy, rank: map<ClassId, nat>)
    requires HierarchyOk(h)
  {
    h.cs.Keys <= rank.Keys &&
    (forall c, r {:trigger r in CompTargets(h, c)} :: c in h.cs && r in CompTargets(h, c) ==> rank[r] < rank[c]) &&
    (forall c, d {:trigger d in DerivedOf(h.cs, c)} :: c in h.cs && d in DerivedOf(h.cs, c) ==> rank[d] < rank[c])
  }

  // ----- The set of classes that need randomize(), as a least fixed point -----

  /** The classes one link away from c: composition targets and derived classes. */
  function Next(h: Hierarchy, c: ClassId): set<ClassId>
    requires ChainOk(h.cs, h.depth) && c in h.cs
  {
    CompTargets(h, c) + DerivedOf(h.cs, c)
  }

  /** M is a set of declared classes closed under composition and inheritance links. */
  ghost predicate Closed(h: Hierarchy, M: set<ClassId>)
    requires ChainOk(h.cs, h.depth)
  {
    M <= h.cs.Keys && forall x :: x in M ==> CompTargets(h, x) <= M && DerivedOf(h.cs, x) <= M
  }

  /** M with everything one link away from it. */
  function Step(h: Hierarchy, M: set<ClassId>): (r: set<ClassId>)
    requires HierarchyOk(h) && M <= h.cs.Keys
    ensures M <= r <= h.cs.Keys
  {
    M + (set x, y | x in M && y in Next(h, x) :: y)
  }

  lemma {:induction false} SubsetCard(x: set<ClassId>, y: set<ClassId>)
    requires x <= y
    ensures |x| <= |y|
    decreases |x|
  {
    if x != {} {
      var e :| e in x;
      SubsetCard(x - {e}, y - {e});
    }
  }

  lemma FewerMissing(all: set<ClassId>, a: set<ClassId>, b: set<ClassId>)
    requires a <= b <= all && a != b
    ensures |all - b| < |all - a|
  {
    var y :| y in b && y !in a;
    SubsetCard(all - b, (all - a) - {y});
  }

  /** The classes reachable from M along composition and derived links: the classes that need randomize(). */
  function NeedsRandomize(h: Hierarchy, M: set<ClassId>): set<ClassId>
    requires HierarchyOk(h) && M <= h.cs.Keys
    decreases |h.cs.Keys - M|
  {
    var M' := Step(h, M);
    if M' == M then M
    else
      FewerMissing(h.cs.Keys, M, M');
      NeedsRandomize(h, M')
  }

  /** NeedsRandomize(M) contains M and is closed. */
  lemma {:induction false} NeedsRandomizeClosed(h: Hierarchy, M: set<ClassId>)
    requires HierarchyOk(h) && M <= h.cs.Keys
    ensures M <= NeedsRandomize(h, M) && Closed(h, NeedsRandomize(h, M))
    decreases |h.cs.Keys - M|
  {
    var M' := Step(h, M);
    if M' == M {
      forall x | x in M ensures CompTargets(h, x) <= M && DerivedOf(h.cs, x) <= M {
        forall y | y in Next(h, x) ensures y in M {
          assert y in Step(h, M);
        }
      }
    } else {
      FewerMissing(h.cs.Keys, M, M');
      NeedsRandomizeClosed(h, M');
    }
  }

  /** NeedsRandomize(M) lies inside every closed set that contains M. */
  lemma {:induction false} NeedsRandomizeLeast(h: Hierarchy, M: set<ClassId>, S: set<ClassId>)
    requires HierarchyOk(h) && M <= h.cs.Keys
    requires Closed(h, S) && M <= S
    ensures NeedsRandomize(h, M) <= S
    decreases |h.cs.Keys - M|
  {
    var M' := Step(h, M);
    if M' != M {
      forall y | y in M' ensures y in S {
        if y !in M {
          var x :| x in M && y in Next(h, x);
          assert CompTargets(h, x) <= S && DerivedOf(h.cs, x) <= S;
        }
      }
      FewerMissing(h.cs.Keys, M, M');
      NeedsRandomizeLeast(h, M', S);
    }
  }

  /** Every recorded base is declared and every recorded derived class really extends it. */
  predicate DerivedOk(cs: ClassTable, dm: map<ClassId, set<ClassId>>) {
    forall b {:trigger dm[b]} :: b in dm ==> b in cs && dm[b] <= DerivedOf(cs, b)
  }

  // ----- What the netlist contributes -----

  /** The class a `randomize` call marks: the class of its receiver's declared type, when that is a class handle. */
  function OwnRoot(k: NodeKind): set<ClassId> {
    if k.CallKind? && k.name == "randomize" && k.recv.dtype.ClassRefDType? then {k.recv.dtype.cls} else {}
  }

  function OwnClass(k: NodeKind): set<ClassId> {
    if k.ClassKind? then {k.cls} else {}
  }

  /** The classes marked by the `randomize` calls of a subtree. */
  function Roots(n: Node): set<ClassId>
    decreases n, 1
  {
    RootsOfKids(n, |n.kids|) + OwnRoot(n.kind)
  }

  function RootsOfKids(n: Node, i: nat): set<ClassId>
    requires i <= |n.kids|
    decreases n, 0, i
  {
    if i == 0 then {} else RootsOfKids(n, i - 1) + Roots(n.kids[i - 1])
  }

  /** The classes declared in a subtree. */
  function ClassesIn(n: Node): set<ClassId>
    decreases n, 1
  {
    ClassesOfKids(n, |n.kids|) + OwnClass(n.kind)
  }

  function ClassesOfKids(n: Node, i: nat): set<ClassId>
    requires i <= |n.kids|
    decreases n, 0, i
  {
    if i == 0 then {} else ClassesOfKids(n, i - 1) + ClassesIn(n.kids[i - 1])
  }

  lemma {:induction false} KidsMonotone(n: Node, i: nat, j: nat)
    requires i <= j <= |n.kids|
    ensures RootsOfKids(n, i) <= RootsOfKids(n, j) && ClassesOfKids(n, i) <= ClassesOfKids(n, j)
    decreases j - i
  {
    if i < j {
      KidsMonotone(n, i, j - 1);
    }
  }

  /** Each child of n contributes its roots and classes to those of n. */
  lemma KidInTree(n: Node, i: nat)
    requires i < |n.kids|
    ensures Roots(n.kids[i]) <= Roots(n) && ClassesIn(n.kids[i]) <= ClassesIn(n)
  {
    KidsMonotone(n, i + 1, |n.kids|);
  }

  /** The classes of C that extend b. */
  function BasedOn(cs: ClassTable, C: set<ClassId>, b: ClassId): (r: set<ClassId>)
    ensures r <= DerivedOf(cs, b)
  {
    set c | c in C && c in cs && cs[c].base == Some(b)
  }

  /** Every class and every marked receiver of the subtree is declared. */
  predicate NodeOk(h: Hierarchy, n: Node) {
    ClassesIn(n) <= h.cs.Keys && Roots(n) <= h.cs.Keys
  }

  /** Its composition targets and its recorded derived classes are all marked. */
  predicate GoodIn(h: Hierarchy, x: ClassId, M: set<ClassId>, dm: map<ClassId, set<ClassId>>)
    requires ChainOk(h.cs, h.depth) && x in h.cs
  {
    CompTargets(h, x) <= M && Recorded(dm, x) <= M
  }

  /** Every class marked since M0 is good. */
  ghost predicate NewGood(h: Hierarchy, M0: set<ClassId>, M: set<ClassId>, dm: map<ClassId, set<ClassId>>)
    requires ChainOk(h.cs, h.depth) && M <= h.cs.Keys
  {
    forall x :: x in M && x !in M0 ==> GoodIn(h, x, M, dm)
  }

  lemma NewGoodTrans(h: Hierarchy, M0: set<ClassId>, M1: set<ClassId>, M2: set<ClassId>, dm: map<ClassId, set<ClassId>>)
    requires ChainOk(h.cs, h.depth) && M1 <= M2 <= h.cs.Keys
    requires NewGood(h, M0, M1, dm) && NewGood(h, M1, M2, dm)
    ensures NewGood(h, M0, M2, dm)
  {
    forall x | x in M2 && x !in M0 ensures GoodIn(h, x, M2, dm) {
      if x in M1 {
        assert GoodIn(h, x, M1, dm);
      }
    }
  }

  /**
   * While the netlist is walked: every marked class has its composition
   * targets marked, and its recorded derived classes are marked unless it
   * is a key of the map (markAllDerived will visit it).
   */
  ghost predicate TravOk(h: Hierarchy, M: set<ClassId>, dm: map<ClassId, set<ClassId>>)
    requires ChainOk(h.cs, h.depth) && M <= h.cs.Keys
  {
    forall x :: x in M ==> CompTargets(h, x) <= M && (Recorded(dm, x) <= M || x in dm)
  }

  lemma TravAfterCall(h: Hierarchy, M0: set<ClassId>, M: set<ClassId>, dm: map<ClassId, set<ClassId>>, c: ClassId)
    requires ChainOk(h.cs, h.depth) && M0 + {c} <= M <= h.cs.Keys
    requires TravOk(h, M0, dm) && NewGood(h, M0 + {c}, M, dm) && CompTargets(h, c) <= M
    ensures TravOk(h, M, dm)
  {
    forall x | x in M ensures CompTargets(h, x) <= M && (Recorded(dm, x) <= M || x in dm) {
      if x in M0 {
        assert CompTargets(h, x) <= M0;
      } else if x != c {
        assert GoodIn(h, x, M, dm);
      }
    }
  }

  lemma TravAfterRecord(h: Hierarchy, M: set<ClassId>, dm: map<ClassId, set<ClassId>>, b: ClassId, c: ClassId)
    requires ChainOk(h.cs, h.depth) && M <= h.cs.Keys && TravOk(h, M, dm)
    ensures TravOk(h, M, dm[b := Recorded(dm, b) + {c}])
  {
    var dm' := dm[b := Recorded(dm, b) + {c}];
    forall x | x in M ensures Recorded(dm', x) <= M || x in dm' {
      if x != b {
        assert Recorded(dm', x) == Recorded(dm, x);
      }
    }
  }

  lemma BasedOnUnion(cs: ClassTable, A: set<ClassId>, B: set<ClassId>, b: ClassId)
    ensures BasedOn(cs, A + B, b) == BasedOn(cs, A, b) + BasedOn(cs, B, b)
  {
  }

  /** visit(AstClass) after its children: record the class under its base. */
  function RecordOwn(h: Hierarchy, dm: map<ClassId, set<ClassId>>, k: NodeKind): map<ClassId, set<ClassId>> {
    if k.ClassKind? && k.cls in h.cs && h.cs[k.cls].base.Some? then
      var b := h.cs[k.cls].base.value;
      dm[b := Recorded(dm, b) + {k.cls}]
    else dm
  }

  /** The base-to-derived map after visiting a subtree. */
  function Record(h: Hierarchy, dm: map<ClassId, set<ClassId>>, n: Node): map<ClassId, set<ClassId>>
    decreases n, 1
  {
    RecordOwn(h, RecordKids(h, dm, n, |n.kids|), n.kind)
  }

  function RecordKids(h: Hierarchy, dm: map<ClassId, set<ClassId>>, n: Node, i: nat): map<ClassId, set<ClassId>>
    requires i <= |n.kids|
    decreases n, 0, i
  {
    if i == 0 then dm else Record(h, RecordKids(h, dm, n, i - 1), n.kids[i - 1])
  }

  /** The map after visiting n holds, for each base, what it held plus the classes of n that extend it. */
  lemma {:induction false} RecordMeaning(h: Hierarchy, dm: map<ClassId, set<ClassId>>, n: Node)
    ensures dm.Keys <= Record(h, dm, n).Keys
    ensures forall b :: Recorded(Record(h, dm, n), b) == Recorded(dm, b) + BasedOn(h.cs, ClassesIn(n), b)
    decreases n, 1
  {
    var mid := RecordKids(h, dm, n, |n.kids|);
    RecordKidsMeaning(h, dm, n, |n.kids|);
    forall b ensures Recorded(Record(h, dm, n), b) == Recorded(dm, b) + BasedOn(h.cs, ClassesIn(n), b) {
      BasedOnUnion(h.cs, ClassesOfKids(n, |n.kids|), OwnClass(n.kind), b);
    }
  }

  lemma {:induction false} RecordKidsMeaning(h: Hierarchy, dm: map<ClassId, set<ClassId>>, n: Node, i: nat)
    requires i <= |n.kids|
    ensures dm.Keys <= RecordKids(h, dm, n, i).Keys
    ensures forall b :: Recorded(RecordKids(h, dm, n, i), b) == Recorded(dm, b) + BasedOn(h.cs, ClassesOfKids(n, i), b)
    decreases n, 0, i
  {
    if i > 0 {
      var mid := RecordKids(h, dm, n, i - 1);
      RecordKidsMeaning(h, dm, n, i - 1);
      RecordMeaning(h, mid, n.kids[i - 1]);
      forall b ensures Recorded(RecordKids(h, dm, n, i), b) == Recorded(dm, b) + BasedOn(h.cs, ClassesOfKids(n, i), b) {
        BasedOnUnion(h.cs, ClassesOfKids(n, i - 1), ClassesIn(n.kids[i - 1]), b);
      }
    }
  }

  /** RandomizeMarkVisitor (and RandomizeMethodMarkVisitor when `ancestors` is false). */
  class Marker {
    const h: Hierarchy
    /** A rank certificate for the links. */
    ghost const rank: map<ClassId, nat>
    /** AstClass::user1: the class needs randomize(). */
    var marked: set<ClassId>
    /** m_baseToDerivedMap. */
    var derived: map<ClassId, set<ClassId>>

    ghost predicate Valid()
      reads this
    {
      HierarchyOk(h) && RankOk(h, rank) && marked <= h.cs.Keys && DerivedOk(h.cs, derived)
    }

    /**
     * The constructor walks the netlist and then marks the derived classes
     * of marked bases. The result is exactly the closure of the classes
     * `randomize` is called on, under composition and inheritance.
     */
    constructor (h: Hierarchy, ghost rank: map<ClassId, nat>, netlist: Node)
      requires HierarchyOk(h) && RankOk(h, rank) && NodeOk(h, netlist)
      requires forall c :: c in h.cs && h.cs[c].base.Some? ==> c in ClassesIn(netlist)
      ensures this.h == h
      ensures marked == NeedsRandomize(h, Roots(netlist))
      ensures forall b :: Recorded(derived, b) == DerivedOf(h.cs, b)
    {
      this.h := h;
      this.rank := rank;
      marked := {};
      derived := map[];
      new;
      ghost var S := NeedsRandomize(h, Roots(netlist));
      NeedsRandomizeClosed(h, Roots(netlist));
      Visit(netlist, S);
      RecordMeaning(h, map[], netlist);
      forall b ensures Recorded(derived, b) == DerivedOf(h.cs, b) {
        assert Recorded(derived, b) == BasedOn(h.cs, ClassesIn(netlist), b);
        forall d | d in DerivedOf(h.cs, b) ensures d in BasedOn(h.cs, ClassesIn(netlist), b) {
          assert h.cs[d].base.Some?;
        }
      }
      MarkAllDerived(S);
      forall x | x in marked ensures CompTargets(h, x) <= marked && DerivedOf(h.cs, x) <= marked {
        assert GoodIn(h, x, marked, derived);
        assert Recorded(derived, x) == DerivedOf(h.cs, x);
      }
      assert Closed(h, marked);
      NeedsRandomizeLeast(h, Roots(netlist), marked);
    }

    /** markMembers: mark the class of every rand class-handle member, after marking what it leads to. */
    method MarkMembers(c: ClassId, ghost S: set<ClassId>)
      requires Valid() && c in h.cs
      requires Closed(h, S) && c in S && marked <= S
      modifies this
      ensures Valid() && derived == old(derived)
      ensures old(marked) <= marked <= S
      ensures CompTargets(h, c) <= marked
      ensures NewGood(h, old(marked), marked, derived)
      decreases rank[c], 2
    {
      var walk := Walked(h, c);
      var k := 0;
      while k < |walk|
        invariant Valid() && derived == old(derived)
        invariant 0 <= k <= |walk|
        invariant old(marked) <= marked <= S
        invariant ChainRefs(h.cs, walk[..k]) <= marked
        invariant NewGood(h, old(marked), marked, derived)
      {
        ghost var before := marked;
        MarkMemberList(c, walk[k], S);
        NewGoodTrans(h, old(marked), before, marked, derived);
        ChainRefsSnoc(h.cs, walk, k);
        k := k + 1;
      }
      ChainRefsWhole(h.cs, walk);
    }

    /** The inner loop of markMembers: the members of one class a of the walk from c. */
    method MarkMemberList(c: ClassId, a: ClassId, ghost S: set<ClassId>)
      requires Valid() && c in h.cs && a in Walked(h, c)
      requires Closed(h, S) && c in S && marked <= S
      modifies this
      ensures Valid() && derived == old(derived)
      ensures old(marked) <= marked <= S
      ensures RandRefs(h.cs[a].members) <= marked
      ensures NewGood(h, old(marked), marked, derived)
      decreases rank[c], 1
    {
      var ms := h.cs[a].members;
      assert RandRefs(ms) <= CompTargets(h, c);
      var i := 0;
      while i < |ms|
        invariant Valid() && derived == old(derived)
        invariant 0 <= i <= |ms|
        invariant old(marked) <= marked <= S
        invariant RandRefs(ms[..i]) <= marked
        invariant NewGood(h, old(marked), marked, derived)
      {
        assert ms[..i + 1][..i] == ms[..i];
        if IsRandClassRef(ms[i]) {
          var r := ms[i].dtype.cls;
          assert r in CompTargets(h, c);
          ghost var m0 := marked;
          MarkMembers(r, S);
          ghost var m1 := marked;
          MarkDerived(r, S);
          NewGoodTrans(h, m0, m1, marked, derived);
          NewGoodTrans(h, old(marked), m0, marked, derived);
          ghost var m2 := marked;
          marked := marked + {r};
          assert GoodIn(h, r, marked, derived);
          assert NewGood(h, m2, marked, derived);
          NewGoodTrans(h, old(marked), m2, marked, derived);
        }
        i := i + 1;
      }
      assert ms[..|ms|] == ms;
    }

    /** markDerived: mark every recorded derived class of b, then what it leads to. */
    method MarkDerived(b: ClassId, ghost S: set<ClassId>)
      requires Valid() && b in h.cs
      requires Closed(h, S) && b in S && marked <= S
      modifies this
      ensures Valid() && derived == old(derived)
      ensures old(marked) <= marked <= S
      ensures Recorded(derived, b) <= marked
      ensures NewGood(h, old(marked), marked, derived)
      decreases rank[b], 0
    {
      if b in derived {
        var todo := derived[b];
        while todo != {}
          invariant Valid() && derived == old(derived)
          invariant todo <= derived[b]
          invariant old(marked) <= marked <= S
          invariant derived[b] - todo <= marked
          invariant NewGood(h, old(marked), marked, derived)
          decreases todo
        {
          var d :| d in todo;
          assert d in DerivedOf(h.cs, b);
          ghost var m0 := marked;
          marked := marked + {d};
          ghost var m1 := marked;
          MarkMembers(d, S);
          ghost var m2 := marked;
          MarkDerived(d, S);
          NewGoodTrans(h, m1, m2, marked, derived);
          assert GoodIn(h, d, marked, derived);
          assert NewGood(h, m0, marked, derived);
          NewGoodTrans(h, old(marked), m0, marked, derived);
          todo := todo - {d};
        }
      }
    }

    /** markAllDerived: markDerived for every recorded base that is marked. */
    method MarkAllDerived(ghost S: set<ClassId>)
      requires Valid() && TravOk(h, marked, derived)
      requires Closed(h, S) && marked <= S
      modifies this
      ensures Valid() && derived == old(derived)
      ensures old(marked) <= marked <= S
      ensures forall x :: x in marked ==> GoodIn(h, x, marked, derived)
    {
      var todo := derived.Keys;
      while todo != {}
        invariant Valid() && derived == old(derived)
        invariant todo <= derived.Keys
        invariant old(marked) <= marked <= S
        invariant forall x :: x in marked ==> CompTargets(h, x) <= marked && (Recorded(derived, x) <= marked || x in todo)
        decreases todo
      {
        var b :| b in todo;
        if b in marked {
          MarkDerived(b, S);
        }
        todo := todo - {b};
      }
    }

    /** The visitor: children first; a class records its base link, a `randomize` call marks its receiver's class. */
    method Visit(n: Node, ghost S: set<ClassId>)
      requires Valid() && TravOk(h, marked, derived) && NodeOk(h, n)
      requires Closed(h, S) && marked <= S && Roots(n) <= S
      modifies this
      ensures Valid() && TravOk(h, marked, derived)
      ensures old(marked) + Roots(n) <= marked <= S
      ensures derived == Record(h, old(derived), n)
      decreases n, 1
    {
      IterateChildren(n, S);
      match n.kind
      case ClassKind(c) =>
        if h.cs[c].base.Some? {
          var b := h.cs[c].base.value;
          TravAfterRecord(h, marked, derived, b, c);
          derived := derived[b := Recorded(derived, b) + {c}];
        }
      case CallKind(name, recv, _) =>
        if name == "randomize" && recv.dtype.ClassRefDType? {
          var c := recv.dtype.cls;
          ghost var m0 := marked;
          marked := marked + {c};
          MarkMembers(c, S);
          TravAfterCall(h, m0, marked, derived, c);
        }
      case _ =>
    }

    /** iterateChildren: visit the children in order. */
    method IterateChildren(n: Node, ghost S: set<ClassId>)
      requires Valid() && TravOk(h, marked, derived) && NodeOk(h, n)
      requires Closed(h, S) && marked <= S && Roots(n) <= S
      modifies this
      ensures Valid() && TravOk(h, marked, derived)
      ensures old(marked) + RootsOfKids(n, |n.kids|) <= marked <= S
      ensures derived == RecordKids(h, old(derived), n, |n.kids|)
      decreases n, 0
    {
      var i := 0;
      while i < |n.kids|
        invariant Valid() && TravOk(h, marked, derived)
        invariant 0 <= i <= |n.kids|
        invariant old(marked) + RootsOfKids(n, i) <= marked <= S
        invariant derived == RecordKids(h, old(derived), n, i)
      {
        KidInTree(n, i);
        Visit(n.kids[i], S);
        i := i + 1;
      }
    }
  }
}
