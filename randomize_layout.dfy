/**
 * Struct bit layout and the statements newRandStmtsp emits for one variable.
 *
 * A packed struct is randomized leaf by leaf: every member that is not itself
 * a struct gets one assignment to the slice of the variable that starts at
 * the sum of the member offsets on the way down and is as wide as the member.
 * A leaf whose type is a typedef of an enum is assigned an entry of the
 * enum's value table at a random index; any other leaf gets a random value
 * of its own width.
 */
module RandomizeLayout {
  import opened Wrappers
  import opened Bits
  import opened GenAst
  import opened Classes
  import opened MultisetCodegen

  // ----- Heights, which every walk over a type decreases -----

  function Height(d: DType): nat
    decreases d, 1
  {
    match d
    case RefDType(t) => 1 + Height(t)
    case StructDType(_, _) => 1 + MembersHeight(d, 0)
    case _ => 0
  }

  function MembersHeight(s: DType, i: nat): nat
    requires s.StructDType? && i <= |s.members|
    decreases s, 0, |s.members| - i
  {
    if i == |s.members| then 0
    else
      assert s.members[i] in s.members;
      Max(Height(s.members[i].dtype), MembersHeight(s, i + 1))
  }

  lemma {:induction false} MemberLower(s: DType, i: nat, j: nat)
    requires s.StructDType? && j <= i < |s.members|
    ensures Height(s.members[i].dtype) <= MembersHeight(s, j)
    decreases i - j
  {
    if j < i {
      MemberLower(s, i, j + 1);
    }
  }

  /** A member of a struct is lower than the struct. */
  lemma MemberHeight(s: DType, i: nat)
    requires s.StructDType? && i < |s.members|
    ensures Height(s.members[i].dtype) < Height(s)
  {
    MemberLower(s, i, 0);
  }

  lemma {:induction false} SkipRefHeight(d: DType)
    ensures Height(SkipRef(d)) <= Height(d)
  {
    if d.RefDType? {
      SkipRefHeight(d.target);
    }
  }

  // ----- The leaves -----

  /**
   * The enum whose value table a leaf of type `d` is drawn from: the enum a
   * typedef names (`subDTypep` as an EnumDType). An enum type written
   * directly has its base type as subDTypep, so it has no table.
   */
  function TableEnum(d: DType): (r: Option<DType>)
    ensures r.Some? ==> r.value.EnumDType? && d == RefDType(r.value)
  {
    match SubDType(d)
    case Some(e) => if e.EnumDType? && d.RefDType? then Some(e) else None
    case None => None
  }

  /**
   * A part whose type names an enum is one leaf: through a typedef it is an
   * entry of the enum's value table at `$urandom % itemCount`, written
   * directly it is a random value of the enum's width.
   */
  lemma EnumStmts(r: Ref, d: DType, off: nat, tabs: map<nat, string>)
    requires IsEnum(d)
    ensures d.RefDType? && d.target.EnumDType? ==>
              RandStmts(r, d, off, tabs) ==
              [Assign(Slice(r, off, d.target.width),
                      TableSel(if d.target.id in tabs then tabs[d.target.id] else "", d.target.width,
                               ModDiv(Rand(32), Const32(|d.target.items|))))]
    ensures d.EnumDType? ==> RandStmts(r, d, off, tabs) == [Assign(Slice(r, off, d.width), Rand(d.width))]
  {
    EnumSkipsToBase(d);
  }

  /** The contents of an enum's value table: its items' values in declaration order. */
  function ItemValues(items: seq<Num>): (r: seq<nat>)
    ensures |r| == |items|
    ensures forall k :: 0 <= k < |items| ==> r[k] == items[k].value
  {
    seq(|items|, k requires 0 <= k < |items| => items[k].value)
  }

  /**
   * The value assigned to a leaf: `table[$urandom % itemCount]` when it has a
   * table (`tabs` names the tables by enum), else a random value of its width.
   */
  function LeafValue(d: DType, tabs: map<nat, string>): Expr {
    match TableEnum(d)
    case Some(e) =>
      TableSel(if e.id in tabs then tabs[e.id] else "", e.width, ModDiv(Rand(32), Const32(|e.items|)))
    case None => Rand(Width(d))
  }

  /** The assignment of a leaf of type `d` whose slot starts at bit `lsb` of `r`. */
  function LeafAssign(r: Ref, lsb: nat, d: DType, tabs: map<nat, string>): Stmt {
    Assign(Slice(r, lsb, Width(d)), LeafValue(d, tabs))
  }

  predicate IsLeaf(d: DType) {
    !SkipRef(d).StructDType?
  }

  // ----- newRandStmtsp -----

  /**
   * The statements newRandStmtsp emits for `r` when the part being
   * randomized has type `d` and starts at bit `off`: a struct (after typedefs)
   * is expanded member by member in declaration order, each member starting
   * `lsb` bits further; anything else is one leaf.
   */
  function RandStmts(r: Ref, d: DType, off: nat, tabs: map<nat, string>): seq<Stmt>
    decreases Height(d), 1
  {
    var s := SkipRef(d);
    if s.StructDType? then
      SkipRefHeight(d);
      MemberStmts(r, s, |s.members|, off, tabs)
    else [LeafAssign(r, off, d, tabs)]
  }

  /** The statements for the first `n` members of struct `s`, which starts at bit `off`. */
  function MemberStmts(r: Ref, s: DType, n: nat, off: nat, tabs: map<nat, string>): seq<Stmt>
    requires s.StructDType? && n <= |s.members|
    decreases Height(s), 0, n
  {
    if n == 0 then []
    else
      MemberHeight(s, n - 1);
      MemberStmts(r, s, n - 1, off, tabs) + RandStmts(r, s.members[n - 1].dtype, off + s.members[n - 1].lsb, tabs)
  }

  /** The enums whose tables the statements for a part of type `d` read. */
  function EnumsOf(d: DType): (r: set<DType>)
    ensures forall e :: e in r ==> e.EnumDType?
    decreases Height(d), 1
  {
    var s := SkipRef(d);
    if s.StructDType? then
      SkipRefHeight(d);
      MemberEnums(s, |s.members|)
    else if TableEnum(d).Some? then {TableEnum(d).value}
    else {}
  }

  function MemberEnums(s: DType, n: nat): (r: set<DType>)
    requires s.StructDType? && n <= |s.members|
    ensures forall e :: e in r ==> e.EnumDType?
    decreases Height(s), 0, n
  {
    if n == 0 then {}
    else
      MemberHeight(s, n - 1);
      MemberEnums(s, n - 1) + EnumsOf(s.members[n - 1].dtype)
  }

  /** The enums of a member are among those of its struct. */
  lemma {:induction false} MemberEnumsContain(s: DType, j: nat, n: nat)
    requires s.StructDType? && j < n <= |s.members|
    ensures EnumsOf(s.members[j].dtype) <= MemberEnums(s, n)
    decreases n
  {
    if j < n - 1 {
      MemberEnumsContain(s, j, n - 1);
    }
  }

  lemma EnumsOfMember(d: DType, j: nat)
    requires SkipRef(d).StructDType? && j < |SkipRef(d).members|
    ensures EnumsOf(SkipRef(d).members[j].dtype) <= EnumsOf(d)
  {
    var s := SkipRef(d);
    MemberEnumsContain(s, j, |s.members|);
  }

  /** The two maps name the same table for each of the enums. */
  predicate SameTabs(es: set<DType>, tabs: map<nat, string>, tabs': map<nat, string>) {
    forall e :: e in es && e.EnumDType? ==> e.id in tabs && e.id in tabs' && tabs[e.id] == tabs'[e.id]
  }

  /** The statements depend on the table names of their own enums only. */
  lemma {:induction false} RandStmtsTabs(r: Ref, d: DType, off: nat, tabs: map<nat, string>, tabs': map<nat, string>)
    requires SameTabs(EnumsOf(d), tabs, tabs')
    ensures RandStmts(r, d, off, tabs) == RandStmts(r, d, off, tabs')
    decreases Height(d), 1
  {
    var s := SkipRef(d);
    if s.StructDType? {
      SkipRefHeight(d);
      MemberStmtsTabs(r, s, |s.members|, off, tabs, tabs');
    }
  }

  lemma {:induction false} MemberStmtsTabs(r: Ref, s: DType, n: nat, off: nat, tabs: map<nat, string>, tabs': map<nat, string>)
    requires s.StructDType? && n <= |s.members|
    requires SameTabs(MemberEnums(s, n), tabs, tabs')
    ensures MemberStmts(r, s, n, off, tabs) == MemberStmts(r, s, n, off, tabs')
    decreases Height(s), 0, n
  {
    if n > 0 {
      MemberHeight(s, n - 1);
      RandStmtsTabs(r, s.members[n - 1].dtype, off + s.members[n - 1].lsb, tabs, tabs');
      MemberStmtsTabs(r, s, n - 1, off, tabs, tabs');
    }
  }

  // ----- The layout as paths -----

  /** A part of a type: where it starts relative to the whole, and its type. */
  datatype Slot = Slot(lsb: nat, dtype: DType)

  /**
   * The part reached by following member indices from a type, each index
   * selecting a member of the struct the current type stands for; its offset
   * is the sum of the members' lsbs along the path.
   */
  function Follow(d: DType, path: seq<nat>): Option<Slot>
    decreases |path|
  {
    if path == [] then Some(Slot(0, d))
    else
      var s := SkipRef(d);
      if s.StructDType? && path[0] < |s.members| then
        var m := s.members[path[0]];
        match Follow(m.dtype, path[1..])
        case Some(t) => Some(Slot(m.lsb + t.lsb, t.dtype))
        case None => None
      else None
  }

  /** A path of at least one step only depends on what the type stands for. */
  lemma FollowSkipRef(d: DType, path: seq<nat>)
    requires path != []
    ensures Follow(d, path) == Follow(SkipRef(d), path)
  {
  }

  /**
   * Soundness of the layout: every statement emitted for a part of type `d`
   * starting at `off` is the assignment of a leaf reached by some path, at
   * `off` plus the offsets along the path, with the leaf's width.
   */
  lemma {:induction false} RandStmtsSound(r: Ref, d: DType, off: nat, tabs: map<nat, string>, st: Stmt)
    requires st in RandStmts(r, d, off, tabs)
    ensures exists p :: Follow(d, p).Some? && IsLeaf(Follow(d, p).value.dtype) &&
                        st == LeafAssign(r, off + Follow(d, p).value.lsb, Follow(d, p).value.dtype, tabs)
    decreases Height(d), 1
  {
    var s := SkipRef(d);
    if s.StructDType? {
      SkipRefHeight(d);
      var p := MemberStmtsSound(r, s, |s.members|, off, tabs, st);
      FollowSkipRef(d, p);
    } else {
      assert Follow(d, []) == Some(Slot(0, d));
    }
  }

  lemma {:induction false} MemberStmtsSound(r: Ref, s: DType, n: nat, off: nat, tabs: map<nat, string>, st: Stmt)
      returns (p: seq<nat>)
    requires s.StructDType? && n <= |s.members|
    requires st in MemberStmts(r, s, n, off, tabs)
    ensures p != [] && Follow(s, p).Some? && IsLeaf(Follow(s, p).value.dtype)
    ensures st == LeafAssign(r, off + Follow(s, p).value.lsb, Follow(s, p).value.dtype, tabs)
    decreases Height(s), 0, n
  {
    MemberHeight(s, n - 1);
    var m := s.members[n - 1];
    if st in RandStmts(r, m.dtype, off + m.lsb, tabs) {
      RandStmtsSound(r, m.dtype, off + m.lsb, tabs, st);
      var q :| Follow(m.dtype, q).Some? && IsLeaf(Follow(m.dtype, q).value.dtype) &&
               st == LeafAssign(r, off + m.lsb + Follow(m.dtype, q).value.lsb, Follow(m.dtype, q).value.dtype, tabs);
      p := [n - 1] + q;
      assert p[1..] == q;
    } else {
      p := MemberStmtsSound(r, s, n - 1, off, tabs, st);
    }
  }

  /**
   * Completeness of the layout: every leaf reached by a path is assigned, at
   * `off` plus the offsets along the path, with the leaf's width.
   */
  lemma {:induction false} RandStmtsComplete(r: Ref, d: DType, off: nat, tabs: map<nat, string>, p: seq<nat>)
    requires Follow(d, p).Some? && IsLeaf(Follow(d, p).value.dtype)
    ensures LeafAssign(r, off + Follow(d, p).value.lsb, Follow(d, p).value.dtype, tabs) in RandStmts(r, d, off, tabs)
    decreases |p|
  {
    if p != [] {
      var s := SkipRef(d);
      var i := p[0];
      var m := s.members[i];
      RandStmtsComplete(r, m.dtype, off + m.lsb, tabs, p[1..]);
      MemberStmtsContain(r, s, i, |s.members|, off, tabs);
    }
  }

  lemma {:induction false} MemberStmtsContain(r: Ref, s: DType, j: nat, n: nat, off: nat, tabs: map<nat, string>)
    requires s.StructDType? && j < n <= |s.members|
    ensures forall x :: x in RandStmts(r, s.members[j].dtype, off + s.members[j].lsb, tabs) ==>
                        x in MemberStmts(r, s, n, off, tabs)
    decreases n
  {
    if j < n - 1 {
      MemberStmtsContain(r, s, j, n - 1, off, tabs);
    }
  }

  // ----- What a leaf assignment leaves in its slot -----

  /** The low `width` bits of x. */
  function Low(x: nat, width: nat): nat
    decreases width
  {
    if width == 0 then 0 else 2 * Low(x / 2, width - 1) + x % 2
  }

  /** The `width` bits of x starting at bit `lsb`. */
  function BitsAt(x: nat, lsb: nat, width: nat): nat
    decreases lsb
  {
    if lsb == 0 then Low(x, width) else BitsAt(x / 2, lsb - 1, width)
  }

  lemma {:induction false} LowSetLow(prev: nat, width: nat, v: nat)
    ensures Low(SetLow(prev, width, v), width) == Low(v, width)
    decreases width
  {
    if width > 0 {
      var y := SetLow(prev, width, v);
      assert y / 2 == SetLow(prev / 2, width - 1, v / 2) && y % 2 == v % 2;
      LowSetLow(prev / 2, width - 1, v / 2);
    }
  }

  lemma {:induction false} BitsAtSetBits(prev: nat, lsb: nat, width: nat, v: nat)
    ensures BitsAt(SetBits(prev, lsb, width, v), lsb, width) == Low(v, width)
    decreases lsb
  {
    if lsb == 0 {
      LowSetLow(prev, width, v);
    } else {
      var y := SetBits(prev, lsb, width, v);
      assert y / 2 == SetBits(prev / 2, lsb - 1, width, v);
      BitsAtSetBits(prev / 2, lsb - 1, width, v);
    }
  }

  /** Euclidean division is unique. */
  lemma ModUnique(x: nat, m: nat, q: nat, r: nat)
    requires 0 <= r < m && x == m * q + r
    ensures x % m == r
  {
    var q', r' := x / m, x % m;
    assert x == m * q' + r';
    var d := q - q';
    assert m * q - m * q' == m * d;
  }

  /** The low bits are the value modulo 2^width. */
  lemma {:induction false} LowIsTrunc(x: nat, width: nat)
    ensures Low(x, width) == Trunc(x, width)
    decreases width
  {
    TruncIsMod(x, width);
    if width > 0 {
      LowIsTrunc(x / 2, width - 1);
      TruncIsMod(x / 2, width - 1);
      ModHalf(x, Pow2(width - 1));
    }
  }

  lemma ModHalf(x: nat, p: nat)
    requires p >= 1
    ensures x % (2 * p) == 2 * ((x / 2) % p) + x % 2
  {
    var h := x / 2;
    var q := h / p;
    assert h == p * q + h % p;
    assert x == (2 * p) * q + (2 * (h % p) + x % 2);
    ModUnique(x, 2 * p, q, 2 * (h % p) + x % 2);
  }

  lemma TruncIsMod(x: nat, width: nat)
    ensures Trunc(x, width) == x % Pow2(width)
  {
    var p := Pow2(width);
    if x < p {
      ModUnique(x, p, 0, x);
    } else if x < 2 * p {
      ModUnique(x, p, 1, x - p);
    }
  }

  lemma {:induction false} LowLow(x: nat, width: nat, w: nat)
    requires w <= width
    ensures Low(Low(x, width), w) == Low(x, w)
    decreases w
  {
    if w > 0 {
      var y := Low(x, width);
      assert y / 2 == Low(x / 2, width - 1) && y % 2 == x % 2;
      LowLow(x / 2, width - 1, w - 1);
    }
  }

  lemma {:induction false} BitsAtLow(x: nat, lsb: nat, w: nat, width: nat)
    requires lsb + w <= width
    ensures BitsAt(Low(x, width), lsb, w) == BitsAt(x, lsb, w)
    decreases lsb
  {
    if lsb == 0 {
      LowLow(x, width, w);
    } else {
      var y := Low(x, width);
      assert y / 2 == Low(x / 2, width - 1);
      BitsAtLow(x / 2, lsb - 1, w, width - 1);
    }
  }

  /** Truncating to the reference's width keeps every slot that lies inside it. */
  lemma BitsAtTrunc(x: nat, lsb: nat, w: nat, width: nat)
    requires lsb + w <= width
    ensures BitsAt(Trunc(x, width), lsb, w) == BitsAt(x, lsb, w)
  {
    LowIsTrunc(x, width);
    BitsAtLow(x, lsb, w, width);
  }

  /** The table of an enum leaf is in place: named, holding the items' values, which fit the enum's width. */
  predicate TableReady(d: DType, tabs: map<nat, string>, ctx: Ctx) {
    TableEnum(d).Some? ==>
      var e := TableEnum(d).value;
      e.id in tabs && tabs[e.id] in ctx.tables && ctx.tables[tabs[e.id]] == ItemValues(e.items) &&
      1 <= |e.items| < Pow2(32) && forall k :: 0 <= k < |e.items| ==> e.items[k].value < Pow2(e.width)
  }

  /**
   * After a leaf's assignment runs, the leaf's slot holds the item of the
   * enum's table the random index picks (`$urandom % itemCount`), or a
   * random value truncated to the leaf's width; the slot must lie inside
   * the reference.
   */
  lemma LeafAssignEffect(r: Ref, lsb: nat, d: DType, tabs: map<nat, string>, st: State, ctx: Ctx)
    requires lsb + Width(d) <= RefWidth(r, ctx)
    requires TableReady(d, tabs, ctx)
    ensures BitsAt(Val(Step(LeafAssign(r, lsb, d, tabs), st, ctx).env, r), lsb, Width(d)) ==
            match TableEnum(d)
            case Some(e) => e.items[Trunc(NextDraw(st), 32) % |e.items|].value
            case None => Trunc(NextDraw(st), Width(d))
  {
    var w := Width(d);
    var e := LeafValue(d, tabs);
    SliceAssignEffect(r, lsb, w, e, st, ctx);
    if TableEnum(d).Some? {
      TableEntry(TableEnum(d).value, tabs, st.env, ctx, NextDraw(st), Max(w, SelfWidth(e, ctx)));
    }
  }

  /** The table selection of an enum leaf picks the item at `$urandom % itemCount`. */
  lemma TableEntry(en: DType, tabs: map<nat, string>, env: map<Ref, nat>, ctx: Ctx, draw: nat, w: nat)
    requires en.EnumDType? && TableReady(RefDType(en), tabs, ctx)
    ensures Eval(LeafValue(RefDType(en), tabs), env, ctx, draw, w) == en.items[Trunc(draw, 32) % |en.items|].value
  {
    var n := |en.items|;
    assert Trunc(n, 32) == n;
    assert Eval(ModDiv(Rand(32), Const32(n)), env, ctx, draw, 32) == Trunc(draw, 32) % n;
  }

  /** A slice assignment leaves in its slot the value of its right-hand side truncated to the slot's width. */
  lemma SliceAssignEffect(r: Ref, lsb: nat, w: nat, e: Expr, st: State, ctx: Ctx)
    requires lsb + w <= RefWidth(r, ctx)
    ensures BitsAt(Val(Step(Assign(Slice(r, lsb, w), e), st, ctx).env, r), lsb, w) ==
            Trunc(Eval(e, st.env, ctx, NextDraw(st), Max(w, SelfWidth(e, ctx))), w)
  {
    var prev := if r in st.env then st.env[r] else 0;
    var v := Trunc(Eval(e, st.env, ctx, NextDraw(st), Max(w, SelfWidth(e, ctx))), w);
    var x := SetBits(prev, lsb, w, v);
    assert Val(Step(Assign(Slice(r, lsb, w), e), st, ctx).env, r) == Trunc(x, RefWidth(r, ctx));
    BitsAtTrunc(x, lsb, w, RefWidth(r, ctx));
    BitsAtSetBits(prev, lsb, w, v);
    LowIsTrunc(v, w);
  }
}
