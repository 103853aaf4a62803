# Randomization, dynamic scheduling and region propagation passes, modelled in Dafny

This project models five passes of a Verilog/SystemVerilog compiler.

- **The `randomize()` synthesis pass** (`src/V3Randomize.cpp`) has four parts.
  - *Marking.* Marking starts from the receivers of `randomize` calls. It closes that set under two relations: the classes of rand class-handle members, for the class and its ancestors, and derived classes. `RandomizeMark.Marker` keeps the marks and the base-to-derived map as fields. Its constructor proves that the marks are exactly the least closed set (`NeedsRandomize`).
  - *Constraints.* Each constraint set maps a variable to exclusive bounds, with fixed-width arithmetic modulo 2^width (`ConstraintSets`). The multiset of sets is a class whose `sets` field is folded in place. Or copies the whole multiset (`ConstraintMultisets`).
  - *Generated code.* The emitted statements and expressions form a small AST with an evaluator (`GenAst`). `SetCodegen` and `MultisetCodegen` build the apply and check code with loops. They prove that running the apply code makes the check evaluate to 1.
  - *The defining visitor.* `RandomizeSynth.RandomizeVisitor` covers the enum value tables, the struct bit layout, find-or-create of `randomize()`, and the inlined member randomization up the class chain. It also covers the helper functions that replace calls with inline constraints, and placing those helpers in modules.
- **The earlier variant** (`src/V3RandomizeMethod.cpp`) marks classes through their own members only. Its synthesized body is an AND-accumulator over `std::randomize` and member `randomize()` calls (`RandomizeMethod`).
- **The dynamic-scheduler preparation** (`src/V3DynamicScheduler.cpp`) has two parts.
  - The delayed-array-assignment rewrite (`DynSchedDly`) uses per-(dimension, width), per-width and per-data-type temporaries. Its variables are created once per (module, name), and one counter is kept per variable scope.
  - The wait-condition pass (`DynSchedWait`) numbers variables by first occurrence and then replaces each reference.
- **The dynamic flags** (`src/V3Dynamic.cpp`, `Dynamic`) are a mixed-region checker plus the flag rules for processes, tasks and functions, calls, references and delays.
- **Region propagation** (`src/V3RegionPropagate.cpp`, `RegionPropagate`) is the per-function region fold with its masking and its consistency assertion.

Stateful C++ visitors are Dafny classes whose fields are the visitor's members. Each method's `ensures` ties the new state to a specification function of the old state. What the source promises is then proved about those functions as lemmas. Pure computations (`getVarp`, `createRef`, the bound arithmetic, etc.) are functions.

Several behaviours are modelled as written, and lemmas state them:

- A bound of `>= 0` or `<= all-ones` wraps. The resulting set then holds for no value (`EdgeCases.GteZeroWraps`, `EdgeCases.LteAllOnesWraps`).
- Min-only apply `v := v + (min+1)` can overflow (`EdgeCases.MinOnlyOverflows`).
- Max-only apply uses the *signed* remainder, which can leave a value that violates the bound (`EdgeCases.MaxOnlySignedRemainder`).
- The signed comparisons `>s`, `>=s`, `<s`, `<=s` are bounded exactly like the unsigned ones. A constant or value with its sign bit set then gives a set that disagrees with the constraint (`EdgeCases.SignedGtMisbounded`). The exactness lemmas therefore assume sign-safe operands (`SignSafe`).
  - For this reason the soundness lemmas (`SetCodegen.ApplySetEstablishes`, `MultisetCodegen.ApplyMultiInBounds`) take the range in which the emitted code does land inside the bounds (`ApplyInRange`) as a precondition.
- `createDlyArray` tests the *selected expression* of a bit range for being a constant. Its offset is not tested. A bit range over a constant never reaches that test, because the target must have a variable under it. So on success the offset always goes through a temporary (`DynSchedDly.DlyArrayShape`).
- A rand enum member, written directly or through a typedef, is randomized like a basic one, because an enum's skipRefp is its base type (`RandomizeMethod.RandEnumMemberOut`, `RandomizeSynthSpec.RandEnumMemberRand`). Only through a typedef does newRandStmtsp draw from the enum's value table (`RandomizeLayout.EnumStmts`).
- The delayed-assignment rewrite enters a wait's statements. The wait pass does not, so a wait inside another wait's statements keeps its references (`DynSchedWait.WaitBodyUntouched`).
- In `newClassRandStmtsp` the randomize() of a class handle is declared but its call is never used. The handle's members are inlined instead (`RandomizeSynth.RandomizeVisitor.NewHandleRand`).
- The `randomize()` of `V3Randomize.cpp` has no success accumulator: its return value is just the check.
- An unmarked class folds its constraints into the multiset and does not reset it. They carry over to whatever is visited next (`RandomizeSynth.RandomizeVisitor.VisitClass`).
- Class constraints are folded derived class first, then each ancestor (`RandomizeSynth.ClassFold`).
- A member named `randomize` that is not a function shadows find-or-create. Each call then appends another method (`RandomizeFunc.ShadowedRandomizeGrows`).
- visit(AstClass) does not walk a class's children, so a pinned `randomize` call inside a class body is never rewritten: the walk neither enters a class node nor changes it (the class case of `Visited`, `Settled` and `Reshaped` in `RandomizeSynth`).
- The helper branch for a class as `m_modp` cannot be taken: `m_modp` is a class only while visit(AstClass) runs, and that visit does not reach calls. So `RandomizeSynth.RandomizeVisitor.MakeHelper` always builds a function that is not a class method, and the helper always goes to the enclosing module.

## Model

| member | source | states |
|---|---|---|
| Bits.Inc | src/V3Randomize.cpp:337 | `(c + 1) mod 2^width` in c's own width, so 0 at all-ones |
| Bits.Dec | src/V3Randomize.cpp:323 | `(c + 2^width - 1) mod 2^width` in c's own width, so all-ones at 0 |
| Bits.TruncRem | src/V3Randomize.cpp:413-419 | the remainder truncating toward zero: the dividend minus it is a multiple of the divisor, its sign is the dividend's, its magnitude below the divisor's |
| Bits.DecimalRoundTrip | src/V3Randomize.cpp:138 | the decimal rendering of a counter (cvtToStr) reads back as the counter |
| Bits.DecimalInjective | src/V3Randomize.cpp:252 | two different counters never render to the same decimal string, so numbered names differ |
| Keys.SortedKeysLength | src/V3Randomize.cpp:399-419 | iterating a map in key order lists every key exactly once |
| Keys.SortedKeysIncreasing | src/V3Randomize.cpp:399-419 | the iteration order is strictly increasing in the key |
| Keys.LeastOf | src/V3Randomize.cpp:399-405 | the first key reached is the least one |
| GenAst.CreateRef | src/V3Randomize.cpp:299-317 | a plain reference to the variable without an object, otherwise a member selection of that variable from the object |
| GenAst.CreateRefInjective | src/V3Randomize.cpp:299-317 | references to different variables through the same object never coincide |
| GenAst.Trunc | src/V3Randomize.cpp:399-419 | the truncation to w bits: below 2^w, the identity on values in range, and one wrap subtracts or adds 2^w |
| GenAst.FirstMatch | src/V3Randomize.cpp:489-496 | a case statement runs the first item whose label equals the scrutinee, or none |
| GenAst.ExecFrame | src/V3Randomize.cpp:389-421 | emitted statements change no reference outside their targets |
| ConstraintExpr.GetVar | src/V3Randomize.cpp:289-298 | a variable exactly for a reference, an extension of one, or a member selection; nothing for any other operand |
| ConstraintSets.MinBound | src/V3Randomize.cpp:320-323 | the exclusive lower bound: `c` for `>`, `c - 1` in c's width for `>=` |
| ConstraintSets.MaxBound | src/V3Randomize.cpp:334-337 | the exclusive upper bound: `c` for `<`, `c + 1` in c's width for `<=` |
| ConstraintSets.AddMin | src/V3Randomize.cpp:324-331 | a lower bound is inserted when the variable has none, and otherwise replaces the stored one only when strictly greater; other variables are untouched |
| ConstraintSets.AddMax | src/V3Randomize.cpp:338-345 | an upper bound is inserted when the variable has none, and otherwise replaces the stored one only when strictly smaller; other variables are untouched |
| ConstraintSets.LeafReported | src/V3Randomize.cpp:348-388 | a leaf that is not `var op const` or `const op var` with a supported operator is reported exactly once and changes nothing; a supported leaf is never reported |
| ConstraintSets.LeafExact | src/V3Randomize.cpp:348-386 | `>`, `>=`, `<`, `<=`, `==` and wildcard `==` (either side constant, roles swapped) bound exactly: when the inclusive bound does not wrap (NoWrap) and a signed comparison's operands read the same signed as unsigned (SignSafe), the new set holds iff the old one and the leaf do |
| ConstraintSets.AddConstraintExact | src/V3Randomize.cpp:348-388 | when every supported leaf is NoWrap and SignSafe (ExactLeaves), folding a conjunction into one set is exact: the new set holds iff the old set and every supported leaf hold |
| ConstraintSets.StoredMinIsMaximum | src/V3Randomize.cpp:324-331 | the stored lower bound is the maximum of all lower bounds added, whatever their order |
| ConstraintSets.StoredMaxIsMinimum | src/V3Randomize.cpp:338-345 | the stored upper bound is the minimum of all upper bounds added, whatever their order |
| ConstraintSets.TighteningOrderFree | src/V3Randomize.cpp:324-345 | any permutation of the same bounds stores the same bounds |
| ConstraintMultisets.AddToEach | src/V3Randomize.cpp:469-471 | a leaf folded into every set of the multiset, one resulting set per set, in order |
| ConstraintMultisets.ConstraintMultiset.constructor | src/V3Randomize.cpp:511 | a fresh multiset holds exactly one empty set |
| ConstraintMultisets.ConstraintMultiset.Copy | src/V3Randomize.cpp:461 | the copy holds the same sets as the original |
| ConstraintMultisets.ConstraintMultiset.Reset | src/V3Randomize.cpp:236-237 | the multiset is back to one empty set |
| ConstraintMultisets.ConstraintMultiset.AddConstraint | src/V3Randomize.cpp:455-472 | the sets become the fold of the constraint: And folds both sides in place, Or folds the left into the sets and the right into a copy and appends the copy, a leaf goes into every set; unsupported leaves are returned in order |
| ConstraintMultisets.ConstraintMultiset.AddLeaf | src/V3Randomize.cpp:469-471 | the leaf added to every set in place |
| ConstraintMultisets.ConstraintMultiset.AddConstraintList | src/V3Randomize.cpp:445-454 | the conditions of each `constraint` member folded in member order |
| ConstraintMultisets.ConstraintMultiset.AddClassConstraints | src/V3Randomize.cpp:439-444 | the class's own constraints first, then those of each ancestor, nearest first |
| ConstraintMultisets.ConstraintMultiset.ApplyConstraints | src/V3Randomize.cpp:473-498 | the apply code of the multiset, and the temporary counter advanced exactly when a temporary is declared |
| ConstraintMultisets.ConstraintMultiset.GenerateCheck | src/V3Randomize.cpp:499-509 | the check of the multiset |
| ConstraintMultisets.FoldCount | src/V3Randomize.cpp:455-468 | Or copies the whole multiset, so the number of sets is the product of the disjunct counts of sibling disjunctions |
| ConstraintMultisets.FoldWellFormed | src/V3Randomize.cpp:455-472 | folding keeps every set's bounds within their widths |
| ConstraintMultisets.FoldAllAppend | src/V3Randomize.cpp:445-454 | folding concatenated condition lists is folding one list after the other |
| ConstraintMultisets.EqLeaf | src/V3Randomize.cpp:370-376 | worked example: an 8-bit `a == c` with 0 < c < 255 bounds `a` exclusively by c - 1 and c + 1 |
| ConstraintMultisets.OrExample | src/V3Randomize.cpp:459-468 | worked example: `a == 1 \|\| a == 2` on an 8-bit `a` yields exactly two sets, bounds (0, 2) and (1, 3), in that order |
| ConstraintMultisets.FoldExact | src/V3Randomize.cpp:455-472 | some resulting set holds iff some original set holds and the constraint holds, when no leaf bound wraps |
| ConstraintMultisets.InBoundsHolds | src/V3Randomize.cpp:422-432 | when every variable of a set lies strictly inside its bounds, the set holds for the values the code holds |
| ConstraintMultisets.RandomizedValuesSatisfy | src/V3Randomize.cpp:455-509 | after the code emitted for a constraint runs from values within ApplyInRange, with fewer than 2^32 sets and the constraint Exact (no wrapped bound, sign-safe operands) on the final values, the variables satisfy the constraint |
| SetCodegen.ValuationOf | src/V3Randomize.cpp:399-432 | a bounded variable takes the value its emitted reference holds |
| SetCodegen.ApplyConstraints | src/V3Randomize.cpp:389-421 | the loops emit exactly the apply code of the set: lower bounds in key order, with both-bound variables reduced and shifted, then variables with only an upper bound reduced by the signed remainder |
| SetCodegen.ApplyMinLoop | src/V3Randomize.cpp:396-412 | the first loop: for each lower-bounded variable, `%` then `+ (min+1)` with both bounds, or `+ (min+1)` alone |
| SetCodegen.ApplyMaxLoop | src/V3Randomize.cpp:413-420 | the second loop: `%s max` for each variable bounded only from above |
| SetCodegen.BuildCheck | src/V3Randomize.cpp:422-432 | the emitted check: 1 and-ed with `v > min` for each lower bound, then `v < max` for each upper bound |
| SetCodegen.GenerateCheckMeaning | src/V3Randomize.cpp:422-432 | the check evaluates to 1 when every bound holds, and to 0 otherwise |
| SetCodegen.AddStep | src/V3Randomize.cpp:407-411 | adding `min + 1` to a value below 2^w - (min + 1) does not wrap |
| SetCodegen.KeyStmtsEffect | src/V3Randomize.cpp:399-419 | one variable's code puts it strictly inside its bounds when it starts within ApplyInRange |
| SetCodegen.GroupEffect | src/V3Randomize.cpp:399-419 | from values within ApplyInRange, the code of distinct variables, in turn, puts each one inside its bounds |
| SetCodegen.GroupKeeps | src/V3Randomize.cpp:399-419 | a variable outside the list keeps its value |
| SetCodegen.ApplySetEstablishes | src/V3Randomize.cpp:389-421 | running the apply code from values within ApplyInRange establishes every bound of the set |
| SetCodegen.ApplyThenCheck | src/V3Randomize.cpp:389-432 | from values within ApplyInRange, after the apply code the set's check evaluates to 1 |
| MultisetCodegen.TempNameInjective | src/V3Randomize.cpp:486-488 | temporaries `__Vtemp_randomize<k>` with different k have different names |
| MultisetCodegen.BuildCases | src/V3Randomize.cpp:489-496 | one case item per set, labelled by its index, holding that set's apply code |
| MultisetCodegen.BuildOrChecks | src/V3Randomize.cpp:499-509 | the left-fold `\|` of the per-set checks over a nonempty multiset |
| MultisetCodegen.SetCheckMeaning | src/V3Randomize.cpp:422-432 | a set's check is 1 exactly when its variables are inside its bounds |
| MultisetCodegen.OrChecksMeaning | src/V3Randomize.cpp:499-509 | the `\|` of the first n checks is 1 exactly when one of those sets holds |
| MultisetCodegen.CheckMultiMeaning | src/V3Randomize.cpp:499-509 | the multiset's check is 1 exactly when there are no sets or some set holds, and 0 otherwise |
| MultisetCodegen.FirstMatchIsIndex | src/V3Randomize.cpp:489-496 | the case statement reaches the item whose label is the chosen index |
| MultisetCodegen.ChoiceRuns | src/V3Randomize.cpp:480-497 | declaring the temporary, drawing into it modulo the item count and casing on it runs the item at the 32-bit draw modulo that count |
| MultisetCodegen.DrawStep | src/V3Randomize.cpp:486-488 | the temporary holds the 32-bit draw modulo n |
| MultisetCodegen.ApplyMultiChooses | src/V3Randomize.cpp:473-498 | with at least two sets, the emitted code applies exactly the set selected by the draw |
| MultisetCodegen.ApplyMultiInBounds | src/V3Randomize.cpp:473-498 | from values within ApplyInRange, the chosen set's variables end inside its bounds |
| MultisetCodegen.ApplyMultiThenCheck | src/V3Randomize.cpp:473-509 | from values within ApplyInRange for every set, and with fewer than 2^32 sets, after applying the multiset its check evaluates to 1 (no sets: nothing applied, check 1) |
| EdgeCases.GteZeroWraps | src/V3Randomize.cpp:320-323 | `a >= 0` holds for every 8-bit value, but its bound wraps to 255, so the resulting set holds for none |
| EdgeCases.LteAllOnesWraps | src/V3Randomize.cpp:334-337 | `a <= 255` holds for every 8-bit value, but its bound wraps to 0, so the resulting set holds for none |
| EdgeCases.SignedGtMisbounded | src/V3Randomize.cpp:359-361 | `a >s 8'hFF` holds for every `a` below 128, but it is bounded like the unsigned `a > 255`, so the resulting set holds for none; its operands are not SignSafe |
| EdgeCases.MinOnlyCode | src/V3Randomize.cpp:407-411 | a lower bound 10 alone emits exactly `a := a + 11` |
| EdgeCases.MaxOnlyCode | src/V3Randomize.cpp:413-419 | an upper bound 100 alone emits exactly `a := a %s 100` |
| EdgeCases.MinOnlyOverflows | src/V3Randomize.cpp:407-411 | from the random value 250, `a > 10` applied as `a + 11` wraps to 5, which violates the bound |
| EdgeCases.MaxOnlySignedRemainder | src/V3Randomize.cpp:413-419 | from the random value 200 (read as -56), `a %s 100` leaves 200, which violates `a < 100` |
| Classes.SkipRef | src/V3Randomize.cpp:204-208 | the type with its typedefs removed and an enum read as its basic base type: never a typedef or an enum, the width kept, an enum gives the basic type of its width, any other type is returned as it is |
| Classes.EnumSkipsToBase | src/V3Randomize.cpp:204-205 | a type naming an enum, directly or through typedefs, skips to the basic type of its width |
| Classes.SubDType | src/V3Randomize.cpp:174-176 | what a typedef names, and the basic type of an enum's width for an enum; other types have none |
| Classes.FindMember | src/V3Randomize.cpp:538 | a member found is in the list and has the name; when none is found no member has it |
| Classes.Chain | src/V3Randomize.cpp:199-201 | starts with the class itself, and every class in it is in the table |
| Classes.ChainSameBases | src/V3Randomize.cpp:199-201 | adding or filling members leaves inheritance, hence every chain, unchanged |
| RandomizeFunc.FindIndexIsFindMember | src/V3Randomize.cpp:538 | the position found is where findMember's member sits, or past the end when there is none |
| RandomizeFunc.FindOrCreate | src/V3Randomize.cpp:536-554 | an existing `randomize` function is returned and the class is unchanged; otherwise exactly one 32-bit signed class method `randomize`, with the given virtual flag, is appended |
| RandomizeFunc.FindOrCreateIdempotent | src/V3Randomize.cpp:536-554 | a second find-or-create returns the same slot and adds nothing |
| RandomizeFunc.ShadowedRandomizeGrows | src/V3Randomize.cpp:538-540 | when the first member named `randomize` is not a function, every find-or-create appends another method |
| RandomizeFunc.FillGrown | src/V3Randomize.cpp:235 | filling in a function's statements keeps its name, and the class only grows |
| RandomizeFunc.DeclaresGrown | src/V3Randomize.cpp:536-554 | a class that declares randomize() still does after the table grows |
| RandomizeFunc.GrownChain | src/V3Randomize.cpp:199-201 | a grown table has the same chains |
| RandomizeMark.RandRefs | src/V3Randomize.cpp:54-62 | holds the class of every rand class-handle member of the list |
| RandomizeMark.Walked | src/V3Randomize.cpp:52-53 | the classes whose members markMembers scans from c: it starts with c, lies in the table, and is c alone when ancestors are not walked |
| RandomizeMark.NeedsRandomizeClosed | src/V3Randomize.cpp:50-80 | the closure contains the roots and is closed under composition and derivation |
| RandomizeMark.NeedsRandomizeLeast | src/V3Randomize.cpp:50-80 | the closure lies inside every closed set containing the roots |
| RandomizeMark.KidInTree | src/V3Randomize.cpp:83-99 | each child's roots and classes are among those of its parent |
| RandomizeMark.RecordMeaning | src/V3Randomize.cpp:83-90 | after the walk, the base-to-derived map of each base holds exactly the walked classes that extend it, added to what it held |
| RandomizeMark.Marker.constructor | src/V3Randomize.cpp:104-107 | after the walk and markAllDerived, the marks are exactly the closure of the `randomize` receivers, and the map records every class's base |
| RandomizeMark.Marker.MarkMembers | src/V3Randomize.cpp:50-65 | every class of a rand handle member of the walk from c is marked, together with what it leads to, and nothing outside the closure |
| RandomizeMark.Marker.MarkMemberList | src/V3Randomize.cpp:54-63 | the member loop of one class of the walk marks its handles' classes |
| RandomizeMark.Marker.MarkDerived | src/V3Randomize.cpp:66-75 | every recorded derived class of b is marked, together with what it leads to |
| RandomizeMark.Marker.MarkAllDerived | src/V3Randomize.cpp:76-80 | afterwards every marked class has its handles' classes and its derived classes marked |
| RandomizeMark.Marker.Visit | src/V3Randomize.cpp:83-99 | children first; every `randomize` receiver class of the subtree is marked, and the map is the record of the subtree's class bases |
| RandomizeMark.Marker.IterateChildren | src/V3Randomize.cpp:83-99 | the children visited in turn, with the same guarantees over all of them |
| RandomizeLayout.TableEnum | src/V3Randomize.cpp:174-176 | when present, an enum the leaf's type is a typedef of; an enum written directly has no value table |
| RandomizeLayout.EnumStmts | src/V3Randomize.cpp:174-189 | a part naming an enum is one leaf: a value-table entry at `$urandom % itemCount` through a typedef, a random value of the enum's width when written directly |
| RandomizeLayout.ItemValues | src/V3Randomize.cpp:145-150 | the value table holds every item's value, in declaration order |
| RandomizeLayout.MemberHeight | src/V3Randomize.cpp:156-171 | a struct member's type is lower than the struct, so the layout recursion ends |
| RandomizeLayout.MemberEnumsContain | src/V3Randomize.cpp:156-171 | the enums of a member are among those of its struct |
| RandomizeLayout.RandStmtsTabs | src/V3Randomize.cpp:154-193 | the statements depend only on the table names of their own enums |
| RandomizeLayout.RandStmtsSound | src/V3Randomize.cpp:154-193 | every emitted statement assigns a leaf reached by some path, at the start offset plus the member offsets along the path, with the leaf's width |
| RandomizeLayout.RandStmtsComplete | src/V3Randomize.cpp:154-193 | every leaf reached by a path is assigned at that offset with that width |
| RandomizeLayout.LeafAssignEffect | src/V3Randomize.cpp:174-191 | after a leaf's assignment, its slot holds `table[random % itemCount]` for an enum typedef, otherwise the random value truncated to its width |
| RandomizeLayout.TableEntry | src/V3Randomize.cpp:177-182 | the table lookup of an enum leaf picks the item at `random % itemCount` |
| RandomizeLayout.SliceAssignEffect | src/V3Randomize.cpp:188-191 | a bit-range assignment leaves in its slot the right-hand side truncated to the slot's width |
| RandomizeLayout.BitsAtTrunc | src/V3Randomize.cpp:188-191 | truncating to the reference's width keeps every slot inside it |
| RandomizeSynthSpec.TabNameInjective | src/V3Randomize.cpp:138 | enum tables numbered apart are named apart |
| RandomizeSynthSpec.HelperNameInjective | src/V3Randomize.cpp:252 | helpers numbered apart are named apart |
| RandomizeSynthSpec.HelperNotRandomize | src/V3Randomize.cpp:252 | no helper is named `randomize` |
| RandomizeSynthSpec.ConstraintWarnings | src/V3Randomize.cpp:387 | one "Unsupported constraint" warning per unusable node, in order |
| RandomizeSynthSpec.Composed | src/V3Randomize.cpp:208-214 | the class a rand class-handle member's randomization is inlined from |
| RandomizeSynthSpec.ClassRandTabs | src/V3Randomize.cpp:196-223 | further table names change nothing already generated |
| RandomizeSynthSpec.CompOkGrown | src/V3Randomize.cpp:196-223 | adding or filling functions keeps composition acyclic |
| RandomizeSynthSpec.FuncNoGen | src/V3Randomize.cpp:203 | a function member contributes nothing |
| RandomizeSynthSpec.MembersRandRefined | src/V3Randomize.cpp:202-220 | function members, old or new, contribute nothing to a member list |
| RandomizeSynthSpec.ClassRandGrown | src/V3Randomize.cpp:196-223 | generation reads the class table as it started: what it adds changes nothing |
| RandomizeSynthSpec.ClassRandTouched | src/V3Randomize.cpp:208-214 | inlining goes down the composition ranks, so generating a class never re-declares its own randomize() |
| RandomizeSynthSpec.MemberRandItems | src/V3Randomize.cpp:203-219 | a member's output is what it emits itself (the leaf assignments of a rand basic, enum or struct variable, or the warning for another unsupported rand variable) together with what the class of a rand handle emits through that handle |
| RandomizeSynthSpec.MembersRandItems | src/V3Randomize.cpp:202-220 | a class's members emit exactly what some one of them emits |
| RandomizeSynthSpec.ChainRandItems | src/V3Randomize.cpp:199-221 | a chain of classes emits exactly what some member of some class of it emits |
| RandomizeSynthSpec.ClassRandItems | src/V3Randomize.cpp:196-223 | newClassRandStmtsp emits exactly what some member of the class or of an ancestor emits |
| RandomizeSynthSpec.ClassRandMeaning | src/V3Randomize.cpp:196-223 | flattened over rand handles: a statement or warning is emitted exactly when some member, reached through the class's ancestors and a path of rand handles, emits it by itself through the reference the nested createRefs build |
| RandomizeSynthSpec.OwnStmt | src/V3Randomize.cpp:204-207 | what a rand basic, enum or struct member emits by itself is exactly the assignments to its leaves, through its reference |
| RandomizeSynthSpec.ClassRandStmts | src/V3Randomize.cpp:196-223 | the statements are exactly the leaf assignments of the rand basic, enum and struct members reached from the class, each through its nested reference: every such leaf is assigned and nothing else is |
| RandomizeSynthSpec.ClassRandWarnings | src/V3Randomize.cpp:215-218 | the warnings are exactly one "Unsupported" per rand member reached whose type is neither basic, struct nor class handle, named by that member |
| RandomizeSynthSpec.ReachesValid | src/V3Randomize.cpp:213 | the reference reached through rand handles is always a valid createRef base |
| RandomizeSynth.DeclaresAllGrown | src/V3Randomize.cpp:224-238 | a class that declares randomize() still does after the table grows |
| RandomizeSynth.MemberStep | src/V3Randomize.cpp:156-171 | one more struct member, generated after the tables grew, extends the generated statements |
| RandomizeSynthSpec.RandEnumMemberRand | src/V3Randomize.cpp:203-207 | a rand member whose type names an enum is randomized in place by newRandStmtsp, with no warning |
| RandomizeSynth.ProducedThen | src/V3Randomize.cpp:196-223 | generating one part after another generates both |
| RandomizeSynth.HandleGen | src/V3Randomize.cpp:208-214 | a rand class handle contributes its class's members through the handle |
| RandomizeSynth.ChainStep | src/V3Randomize.cpp:199-201 | one more class of the chain extends what has been generated |
| RandomizeSynth.MembersStep | src/V3Randomize.cpp:202-220 | one more member extends what has been generated |
| RandomizeSynth.MembersSnapshot | src/V3Randomize.cpp:202 | a class's members read now give what they gave when generation began |
| RandomizeSynth.SnapshotMember | src/V3Randomize.cpp:202-220 | a member of the snapshot inlines only lower classes, and its enums have items |
| RandomizeSynth.FillKeeps | src/V3Randomize.cpp:235 | filling randomize() keeps what the visitor needs of the table, and changes only the touched classes |
| RandomizeSynth.FuncNodes | src/V3Randomize.cpp:269-275 | the helpers as function nodes added to a module, in order |
| RandomizeSynth.NumberedDistinct | src/V3Randomize.cpp:252 | helpers numbered apart never clash within a module |
| RandomizeSynth.RandomizeVisitor.constructor | src/V3Randomize.cpp:240 | empty tables, counters at 0, no warnings, and a multiset of one empty set |
| RandomizeSynth.RandomizeVisitor.NewRandomizeFunc | src/V3Randomize.cpp:536-554 | find-or-create of randomize(), virtual when the class is extended; the slot holds a function named `randomize` |
| RandomizeSynth.RandomizeVisitor.EnumValueTab | src/V3Randomize.cpp:129-153 | a known enum returns its table and changes nothing; a new one gets `__Venumvaltab_<count>`, holding its item values, and the counter advances once |
| RandomizeSynth.RandomizeVisitor.NewRandStmts | src/V3Randomize.cpp:154-193 | the statements are the layout of the part, and every enum they read has a table |
| RandomizeSynth.RandomizeVisitor.NewMemberStmts | src/V3Randomize.cpp:156-171 | the struct's members in turn, each `lsb` bits further on |
| RandomizeSynth.RandomizeVisitor.NewLeafStmt | src/V3Randomize.cpp:174-191 | one assignment: a table entry for an enum typedef, otherwise a random value, through a bit range when inside a struct |
| RandomizeSynth.RandomizeVisitor.NewClassRandStmts | src/V3Randomize.cpp:196-223 | the members of the class and of its ancestors, nearest first, with the warnings and declarations that generation makes |
| RandomizeSynth.RandomizeVisitor.NewChainClassStmts | src/V3Randomize.cpp:199-201 | one class of the chain appended |
| RandomizeSynth.RandomizeVisitor.NewMembersRandStmts | src/V3Randomize.cpp:202-220 | the members of one class of the chain, in order |
| RandomizeSynth.RandomizeVisitor.NewMemberRand | src/V3Randomize.cpp:203-219 | a rand basic, enum or struct variable (after typedefs) is randomized in place; a rand class handle declares that class's randomize() and inlines its members; another rand variable is warned about; anything else is skipped |
| RandomizeSynth.RandomizeVisitor.NewVarRand | src/V3Randomize.cpp:204-207 | newRandStmtsp on a reference to the variable |
| RandomizeSynth.RandomizeVisitor.NewHandleRand | src/V3Randomize.cpp:208-214 | the class's randomize() declared, its call unused, and the class's members randomized through the handle |
| RandomizeSynth.RandomizeVisitor.ApplyAndReturn | src/V3Randomize.cpp:229-235 | the multiset's apply code, then the return variable set to its check |
| RandomizeSynth.RandomizeVisitor.DefineRandomize | src/V3Randomize.cpp:230-237 | randomize() receives the members' randomization, the apply code and `return := check`; the multiset is reset and the mark cleared |
| RandomizeSynth.RandomizeVisitor.FinishRandomize | src/V3Randomize.cpp:232-237 | the generated statements, the apply code and its check appended to randomize(), then the reset and the mark cleared |
| RandomizeSynth.RandomizeVisitor.StoreRandomize | src/V3Randomize.cpp:235-237 | the statements added to randomize() at its slot, the multiset reset and the mark cleared |
| RandomizeSynth.RandomizeVisitor.MemberRandOfClass | src/V3Randomize.cpp:231-234 | find-or-create of randomize(), then the members of the class chain generated |
| RandomizeSynth.RandomizeVisitor.VisitClass | src/V3Randomize.cpp:224-238 | the constraints are folded and unusable ones reported; a marked class gets randomize() defined and the multiset reset; an unmarked class changes nothing else and keeps the folded multiset |
| RandomizeSynth.RandomizeVisitor.VisitCall | src/V3Randomize.cpp:242-281 | a pinned `randomize` call folds its class and its pins, and is applied; when that emits code, a helper `__Vrandomize<n>` holding the members' randomization, the apply code and the check is returned and the counter advances; the multiset is reset; other calls change nothing |
| RandomizeSynth.RandomizeVisitor.FoldCall | src/V3Randomize.cpp:248-250 | the receiver's class chain folded, then the pins |
| RandomizeSynth.RandomizeVisitor.MakeHelper | src/V3Randomize.cpp:251-268 | a signed 32-bit function `__Vrandomize<funcCnt>` whose body is the receiver class's randomization, the apply code and the return of the check |
| RandomizeSynth.RandomizeVisitor.Visit | src/V3Randomize.cpp:224-286 | the rewritten subtree only replaces calls, each rewritten one by a reference to a `__Vrandomize<n>` helper, and adds helpers to modules; marks are cleared for exactly the classes visited, and every visited class that was marked now declares randomize(); helpers are numbered in order |
| RandomizeSynth.RandomizeVisitor.VisitClassNode | src/V3Randomize.cpp:224-238 | a class node stays in place and loses its mark; a marked one now declares randomize() |
| RandomizeSynth.RandomizeVisitor.VisitCallNode | src/V3Randomize.cpp:276-280 | with a helper made, the call is replaced by a reference to it; otherwise only its pins are removed |
| RandomizeSynth.RandomizeVisitor.VisitModule | src/V3Randomize.cpp:269-275 | the helpers made beneath a module are added as its last statements |
| RandomizeSynth.RandomizeVisitor.VisitKids | src/V3Randomize.cpp:282-286 | the children visited in turn, their helpers collected in order; every marked class among them now declares randomize() |
| RandomizeSynth.RandomizeVisitor.VisitKid | src/V3Randomize.cpp:282-286 | one child visited, its result and its helpers appended |
| RandomizeSynth.RandomizeNetlist | src/V3Randomize.cpp:527-534 | after marking with ancestors walked and defining over the netlist, the classes still marked are exactly those of the closure not declared in the netlist; every class of the closure declared in the netlist now declares randomize(); no pinned call is left, and each rewritten one refers to a `__Vrandomize<n>` helper; the table only grows |
| RandomizeMethod.MemberOut | src/V3RandomizeMethod.cpp:97-120 | a rand variable gives exactly one statement or warning and other members nothing; every statement is an accumulator step `ret := ret & call`; the callee is the handle's class exactly for a rand class handle |
| RandomizeMethod.MembersOut | src/V3RandomizeMethod.cpp:97-120 | one statement or warning per rand variable in declaration order, each statement an accumulator step, the callees exactly the rand handles' classes |
| RandomizeMethod.RandEnumMemberOut | src/V3RandomizeMethod.cpp:103-105 | a rand member whose type names an enum gives the accumulator step over `std::randomize`, with no warning |
| RandomizeMethod.ExtendedMembers | src/V3RandomizeMethod.cpp:153-171 | appended functions change neither a member list's rand handles nor its contribution |
| RandomizeMethod.AppendBodyOk | src/V3RandomizeMethod.cpp:93-130 | filling in a function's body keeps the table's invariant |
| RandomizeMethod.DeclaredKeeps | src/V3RandomizeMethod.cpp:92-125 | the method found for the class stays at its slot, untouched, while callees are declared |
| RandomizeMethod.PostOrderClasses | src/V3RandomizeMethod.cpp:89-90 | the visit order lists exactly the classes declared in the subtree |
| RandomizeMethod.SynthesizedOnce | src/V3RandomizeMethod.cpp:88-134 | each marked class of the order is synthesized exactly once |
| RandomizeMethod.SynthesizedAppend | src/V3RandomizeMethod.cpp:132 | classes of a visited list are no longer marked for a later one |
| RandomizeMethod.AccumulateMeaning | src/V3RandomizeMethod.cpp:101-112 | a run of AND-accumulator steps with 0/1 call results ends at 1 exactly when it started at 1 and every call returned 1 |
| RandomizeMethod.AccumulateStep | src/V3RandomizeMethod.cpp:101-112 | one step stores the AND of the two bits and consumes one draw |
| RandomizeMethod.BodyMeaning | src/V3RandomizeMethod.cpp:93-130 | the synthesized statements return 1 exactly when every call returned 1 |
| RandomizeMethod.SynthClassResult | src/V3RandomizeMethod.cpp:88-134 | the method at the chosen slot is a 32-bit signed class method `randomize` whose statements are the old ones plus `randomize = 1` and the chain's steps; the callees declare randomize(); the warnings are the chain's |
| RandomizeMethod.SynthClassCallees | src/V3RandomizeMethod.cpp:106-112 | every class handled by a rand member of the chain declares randomize() afterwards |
| RandomizeMethod.ChainOutCallees | src/V3RandomizeMethod.cpp:106-112 | the callees of a chain are classes of the table |
| RandomizeMethod.DeclareAllDeclares | src/V3RandomizeMethod.cpp:153-171 | every listed class declares randomize() afterwards |
| RandomizeMethod.StoreBody | src/V3RandomizeMethod.cpp:93-130 | storing the built body completes SynthClass and keeps the invariant |
| RandomizeMethod.KidStep | src/V3RandomizeMethod.cpp:89-90 | one more child: its classes come after the earlier children's and lose their marks |
| RandomizeMethod.TableOfHierarchy | src/V3RandomizeMethod.cpp:50-62 | a hierarchy that is acyclic for marking with ancestors off also meets the synthesis visitor's table invariant |
| RandomizeMethod.MethodVisitor.constructor | src/V3RandomizeMethod.cpp:140-151 | the table, the marks and no warnings |
| RandomizeMethod.MethodVisitor.DeclareIn | src/V3RandomizeMethod.cpp:153-171 | find-or-create of randomize(), always virtual; returns where it sits |
| RandomizeMethod.MethodVisitor.RandMembers | src/V3RandomizeMethod.cpp:97-120 | the statements, warnings and callee declarations of one class's members |
| RandomizeMethod.MethodVisitor.RandMember | src/V3RandomizeMethod.cpp:98-119 | one member: a statement, a warning or nothing, callees declared |
| RandomizeMethod.MethodVisitor.VisitClass | src/V3RandomizeMethod.cpp:88-134 | a marked class is synthesized as SynthClass says and loses its mark; an unmarked one changes nothing |
| RandomizeMethod.MethodVisitor.Synthesize | src/V3RandomizeMethod.cpp:91-130 | the class table and warnings become SynthClass of the old ones |
| RandomizeMethod.MethodVisitor.ChainMembers | src/V3RandomizeMethod.cpp:96-121 | the statements of each class of the chain, nearest first |
| RandomizeMethod.MethodVisitor.Visit | src/V3RandomizeMethod.cpp:88-134 | children first; the state is the synthesis of the subtree's marked classes in visit order, and their marks are cleared |
| RandomizeMethod.MethodVisitor.IterateChildren | src/V3RandomizeMethod.cpp:89-90 | the children in turn |
| RandomizeMethod.DefineIfNeeded | src/V3RandomizeMethod.cpp:140-151 | marking with own members only, then synthesis: every class of the closure that is declared in the netlist is synthesized once, in visit order |
| DynSchedDly.OneVarPerName | src/V3DynamicScheduler.cpp:56-77 | no two created variables share a module and a name |
| DynSchedDly.VarScCreatedValid | src/V3DynamicScheduler.cpp:56-77 | createVarSc keeps one variable per (module, name) and fresh scope numbers |
| DynSchedDly.VarScCreatedFacts | src/V3DynamicScheduler.cpp:56-77 | a variable is made exactly when (module, name) is new; one new scope is always added |
| DynSchedDly.DotlessMeaning | src/V3DynamicScheduler.cpp:168-173 | replacing '.' by '_' keeps the length and every other character and leaves no '.' |
| DynSchedDly.ValNameFacts | src/V3DynamicScheduler.cpp:168-173 | the value temporary's name has no '.', and it tells apart two rewrite numbers under one data type |
| DynSchedDly.DimReadStep | src/V3DynamicScheduler.cpp:114-126 | a constant index costs nothing; another reuses the memoised temporary for its (dimension, width) without creating anything |
| DynSchedDly.DimReadsFrame | src/V3DynamicScheduler.cpp:110-134 | the index temporaries leave the other memo tables and the bookkeeping alone |
| DynSchedDly.DimReadsStmts | src/V3DynamicScheduler.cpp:127-131 | one index assignment per non-constant index, in dimension order |
| DynSchedDly.DimReadsReads | src/V3DynamicScheduler.cpp:110-134 | dimension d is read as IndexRead says in the final memo tables |
| DynSchedDly.LsbStep | src/V3DynamicScheduler.cpp:146-153 | the offset is direct only over a constant, otherwise read through its width's temporary |
| DynSchedDly.ValStep | src/V3DynamicScheduler.cpp:164-181 | the value is direct when constant, otherwise read through its data type's temporary |
| DynSchedDly.RebuildDims | src/V3DynamicScheduler.cpp:190-198 | a rebuilt chain applies exactly the given indices and types over its base |
| DynSchedDly.RebuildRoundTrip | src/V3DynamicScheduler.cpp:96-101 | taking a chain apart and rebuilding it with the same indices gives it back |
| DynSchedDly.DlyStages | src/V3DynamicScheduler.cpp:80-204 | createDlyArray on success applies its last stage to the indices of the counted state |
| DynSchedDly.FinishShape | src/V3DynamicScheduler.cpp:136-203 | the offset and value assignments, then the marked delayed assignment |
| DynSchedDly.FinishFrame | src/V3DynamicScheduler.cpp:136-203 | the last stage changes no bookkeeping |
| DynSchedDly.FinishReads | src/V3DynamicScheduler.cpp:136-188 | the last stage reads the offset and value as LsbStep and ValStep say |
| DynSchedDly.DlyArrayShape | src/V3DynamicScheduler.cpp:80-204 | index assignments in dimension order, then the offset, the value, and the processed delayed assignment last, whose target keeps the variable, the select types and the bit range |
| DynSchedDly.DlyArrayIndexReads | src/V3DynamicScheduler.cpp:96-134 | index d of the new target is the original's when constant, else the temporary for (d, width) |
| DynSchedDly.DlyArrayTempReads | src/V3DynamicScheduler.cpp:136-188 | the new offset and value read through their temporaries, a constant value directly |
| DynSchedDly.DlyArrayCounter | src/V3DynamicScheduler.cpp:108 | each rewrite takes its scope's next number exactly once and leaves the other bookkeeping alone |
| DynSchedDly.DlyArrayValid | src/V3DynamicScheduler.cpp:80-204 | createDlyArray keeps one variable per (module, name) |
| DynSchedDly.VisitedValid | src/V3DynamicScheduler.cpp:207-235 | the whole pass keeps one variable per (module, name) |
| DynSchedDly.AssignDlyFacts | src/V3DynamicScheduler.cpp:220-235 | a processed assignment is left alone; another is warned about once inside a C function (any AstCFunc), marked processed, and rewritten only when its target is an element or a bit range |
| DynSchedDly.ActiveForgets | src/V3DynamicScheduler.cpp:214-219 | an active block starts with empty memo tables, whatever they held |
| DynSchedDly.GeneratedInert | src/V3DynamicScheduler.cpp:199-203 | createDlyArray emits only plain assignments and processed delayed assignments |
| DynSchedDly.GeneratedRevisited | src/V3DynamicScheduler.cpp:200 | a later visit leaves what createDlyArray emitted, and the state, unchanged |
| DynSchedDly.VisitedDone | src/V3DynamicScheduler.cpp:220-235 | after the visit every delayed assignment is processed |
| DynSchedDly.DoneFixed | src/V3DynamicScheduler.cpp:221 | a tree whose delayed assignments are all processed comes back unchanged |
| DynSchedDly.VisitIdempotent | src/V3DynamicScheduler.cpp:207-235 | a second run changes no node |
| DynSchedDly.Underscored | src/V3DynamicScheduler.cpp:168-173 | the name with every '.' replaced by '_' |
| DynSchedDly.AssignDlyVisitor.constructor | src/V3DynamicScheduler.cpp:242 | the initial bookkeeping |
| DynSchedDly.AssignDlyVisitor.CreateVarSc | src/V3DynamicScheduler.cpp:49-78 | the state becomes that of VarScCreated |
| DynSchedDly.AssignDlyVisitor.IndexTemps | src/V3DynamicScheduler.cpp:110-134 | the index temporaries, the reads pushed to the front |
| DynSchedDly.AssignDlyVisitor.IndexTemp | src/V3DynamicScheduler.cpp:111-133 | one step of the index loop |
| DynSchedDly.AssignDlyVisitor.LsbTemp | src/V3DynamicScheduler.cpp:136-161 | the offset part |
| DynSchedDly.AssignDlyVisitor.ValTemp | src/V3DynamicScheduler.cpp:162-188 | the value part |
| DynSchedDly.AssignDlyVisitor.CreateDlyArray | src/V3DynamicScheduler.cpp:80-204 | the statements and state of DlyArrayOf, or nothing and no change when no scoped variable is found |
| DynSchedDly.AssignDlyVisitor.Rewrite | src/V3DynamicScheduler.cpp:106-204 | the number taken first, then the temporaries and the rebuilt assignment |
| DynSchedDly.AssignDlyVisitor.Tail | src/V3DynamicScheduler.cpp:110-204 | the temporaries and the rebuilt delayed assignment |
| DynSchedDly.AssignDlyVisitor.Finish | src/V3DynamicScheduler.cpp:136-203 | the offset, the value and the rebuilt assignment after the indices |
| DynSchedDly.AssignDlyVisitor.Visit | src/V3DynamicScheduler.cpp:207-238 | the result and state are those of Visited |
| DynSchedDly.AssignDlyVisitor.VisitAssignDly | src/V3DynamicScheduler.cpp:220-235 | the result and state are those of AssignDlyVisited |
| DynSchedDly.AssignDlyVisitor.VisitKids | src/V3DynamicScheduler.cpp:207-238 | the children in turn |
| DynSchedDly.FindSelects | src/V3DynamicScheduler.cpp:96-104 | the indices, their types and the variable under the chain |
| DynSchedDly.Rebuilt | src/V3DynamicScheduler.cpp:190-198 | the rebuilt chain over the read-back indices |
| DynSchedDly.DynSched | src/V3DynamicScheduler.cpp:308-313 | the rewrite over the netlist, then the wait pass, unless an internal error was raised |
| DynSchedWait.NoteScanSplit | src/V3DynamicScheduler.cpp:279-286 | NOTE numbers as IdxScan and keeps a reference for exactly the numbered variables |
| DynSchedWait.IdxScanNumbers | src/V3DynamicScheduler.cpp:279-286 | from an empty table, the distinct variables are numbered by first occurrence |
| DynSchedWait.NoteScanKeepsFirst | src/V3DynamicScheduler.cpp:280-285 | each variable keeps its first reference |
| DynSchedWait.NoteScanNumbers | src/V3DynamicScheduler.cpp:279-286 | both facts from empty tables |
| DynSchedWait.IdxScanKeeps | src/V3DynamicScheduler.cpp:280-286 | numbering more variables keeps the numbers already given |
| DynSchedWait.IdxFirstOccurrence | src/V3DynamicScheduler.cpp:279-286 | a variable first seen at p is numbered by the count of distinct variables before p; later occurrences change nothing |
| DynSchedWait.FirstOccurrenceIndex | src/V3DynamicScheduler.cpp:260-286 | the same for the references of a wait condition |
| DynSchedWait.Gets | src/V3DynamicScheduler.cpp:287-293 | the `std::get<i>(values)` reads that replace references, in order |
| DynSchedWait.ReplacedReads | src/V3DynamicScheduler.cpp:287-293 | REPLACE leaves no reference, and its reads are those of the references' numbers with their types |
| DynSchedWait.WaitDoneMeaning | src/V3DynamicScheduler.cpp:260-293 | every reference becomes the read of its first-occurrence number, and the wait keeps one reference per variable |
| DynSchedWait.NumberedCovers | src/V3DynamicScheduler.cpp:265-267 | after NOTE every referenced variable has a number |
| DynSchedWait.WaitVisitor.constructor | src/V3DynamicScheduler.cpp:302 | mode SKIP and empty tables |
| DynSchedWait.WaitBodyUntouched | src/V3DynamicScheduler.cpp:260-277 | the wait pass visits only a wait's condition: its statements, and any wait among them, come out unchanged |
| DynSchedWait.WaitVisitor.VisitExpr | src/V3DynamicScheduler.cpp:279-298 | NOTE updates the tables, REPLACE rewrites the references, SKIP changes nothing |
| DynSchedWait.WaitVisitor.VisitArgs | src/V3DynamicScheduler.cpp:298 | the same over an operator's arguments |
| DynSchedWait.WaitVisitor.VisitWait | src/V3DynamicScheduler.cpp:260-277 | NOTE, REPLACE, the kept references, then empty tables and SKIP again |
| DynSchedWait.WaitVisitor.Visit | src/V3DynamicScheduler.cpp:260-298 | the result is WaitPass of the node, the visitor idle again |
| DynSchedWait.WaitVisitor.VisitKids | src/V3DynamicScheduler.cpp:298 | the children in turn |
| Dynamic.RegionScanMixed | src/V3Dynamic.cpp:53-61 | from a fresh checker, the reference is the first set region, and mixed holds exactly for mixed region lists |
| Dynamic.FirstSetUnmixed | src/V3Dynamic.cpp:56-61 | in a list that is not mixed, every set region is the first one |
| Dynamic.RegionVisitedScans | src/V3Dynamic.cpp:56-61 | visiting a subtree checks its statements in order |
| Dynamic.IsMixedMeaning | src/V3Dynamic.cpp:66 | isMixed() holds exactly when the statements have mixed regions |
| Dynamic.RegionChecker.constructor | src/V3Dynamic.cpp:62-64 | no reference region and not mixed |
| Dynamic.RegionChecker.Visit | src/V3Dynamic.cpp:56-61 | the state is RegionVisited of the old one |
| Dynamic.RegionChecker.IterateChildren | src/V3Dynamic.cpp:56-61 | the children in turn |
| Dynamic.FlagRaised | src/V3Dynamic.cpp:106-141 | in a subtree without processes or tasks, the flag ends raised exactly when it was raised or some node raises it |
| Dynamic.ProcMarked | src/V3Dynamic.cpp:79-83 | a process is marked dynamic exactly when the flag was raised or its body raises it; the flag is cleared |
| Dynamic.FTaskMarked | src/V3Dynamic.cpp:85-104 | a task or function is dynamic exactly when the flag was raised, it is virtual, it has mixed regions under the stratified scheduler, or its body raises the flag; a delay counts in a task only |
| Dynamic.DynamicVisitor.constructor | src/V3Dynamic.cpp:147-150 | flags lowered, marks as given |
| Dynamic.DynamicVisitor.MarkAndClear | src/V3Dynamic.cpp:73-77 | the node marked with the flag and the flag cleared |
| Dynamic.DynamicVisitor.Visit | src/V3Dynamic.cpp:79-141 | the state is Visited of the old one |
| Dynamic.DynamicVisitor.VisitFTask | src/V3Dynamic.cpp:85-104 | the same for a task or function |
| Dynamic.DynamicVisitor.VisitFTaskRef | src/V3Dynamic.cpp:106-113 | the same for a call: raised when the callee is dynamic, virtual or DPI-imported |
| Dynamic.DynamicVisitor.VisitVarRef | src/V3Dynamic.cpp:115-135 | the same for a reference: raised for a predefined mailbox, semaphore or process class |
| Dynamic.DynamicVisitor.IterateChildren | src/V3Dynamic.cpp:79-141 | the children in turn |
| Dynamic.MarkDynamic | src/V3Dynamic.cpp:157-160 | the flags after visiting the netlist's children in turn |
| RegionPropagate.BitAndFour | src/V3RegionPropagate.cpp:31-33 | `x & 4` is 4 exactly when bit 2 of x is set, otherwise 0 |
| RegionPropagate.MaskedRange | src/V3RegionPropagate.cpp:31-33 | a masked region is -1, 0 or 4, and -1 only for -1 |
| RegionPropagate.Check | src/V3RegionPropagate.cpp:35-36 | the running region becomes the node's when set; the assertion trips exactly when both are set and differ |
| RegionPropagate.ScanChecks | src/V3RegionPropagate.cpp:29-39 | the running region is the last one set, and the assertion trips exactly when two set regions differ |
| RegionPropagate.CoincideSnoc | src/V3RegionPropagate.cpp:35 | one more region keeps agreement exactly when it is -1 or agrees with the last set one |
| RegionPropagate.LastSetCoincides | src/V3RegionPropagate.cpp:35-36 | when the regions agree, the last set one agrees with every set one |
| RegionPropagate.RegionsMasked | src/V3RegionPropagate.cpp:31-33 | every region a function sees is -1, 0 or 4 |
| RegionPropagate.FuncRegion | src/V3RegionPropagate.cpp:17-25 | a function's regionId is the last masked region set in its body, or -1 |
| RegionPropagate.OutsideUnchecked | src/V3RegionPropagate.cpp:29-39 | outside a function, nothing is checked or accumulated |
| RegionPropagate.CallCopies | src/V3RegionPropagate.cpp:26-28 | a call takes its callee's regionId and changes nothing else |
| RegionPropagate.RegionPropagator.constructor | src/V3RegionPropagate.cpp:43-47 | region -1, outside any function, regionIds as given |
| RegionPropagate.RegionPropagator.Visit | src/V3RegionPropagate.cpp:17-39 | the state is Visited of the old one |
| RegionPropagate.RegionPropagator.IterateChildren | src/V3RegionPropagate.cpp:17-39 | the children in turn |
| RegionPropagate.PropagateRegions | src/V3RegionPropagate.cpp:54-57 | the regionIds and the assertion outcome after visiting the netlist |

## Left out

- The AST library is left out: node construction, cloning, unlinking, replacing and deleting. Nodes are Dafny datatypes, and `user1`/`user2` marks and memos are sets and maps.
- Random draws (`$urandom`, `std::randomize`) are not modelled; each raw value is a parameter of the evaluator's state, taken from a draw sequence.
- Diagnostics: warnings are lists of records. `UINFO`, tree dumps and the debug output of the inline-constraint visitor are not modelled.
- The `UASSERT_OBJ` checks of `createDlyArray` are not modelled as aborts. A missing variable under a select chain returns no statements and sets a failure flag, and `DynSched` then returns nothing.
- The unscoped-variable assertion of createVarSc is a precondition.
- Pointer-keyed maps iterate in address order. Variables are ordered identifiers, and no property depends on that order except `SetCodegen.ApplyConstraints`'s key order, which is stated for any order.
- The wait pass's reference table is keyed by variable pointer. The references it keeps are stated by variable, and their order in the wait's list is left out.
- DynSchedWait: the access flag of a variable reference is not modelled.
- DynSchedDly: a temporary's reference takes the stored expression's data type.
- The `stratifiedScheduler()` option is a boolean parameter.
- The `DynamicSubtreeVisitor` in `src/V3Dynamic.cpp` is never used and is not modelled.
- The shadowed class pointer in `src/V3RandomizeMethod.cpp` is not modelled.
- The casts to variable reference and class type on the receiver of a method call are a precondition of `RandomizeSynth.RandomizeVisitor.VisitCall`, and through `Visitable` of the walk, for every method call the visitor reaches, pinned or not: the source dereferences both casts before it looks at the call's name.
- Marking has no visited guard. So `RandomizeMark.Marker` requires acyclic composition and inheritance, through a rank; the source does not terminate otherwise.
- Fixed-width arithmetic uses integers modulo 2^width. Signedness is modelled only where the code uses it: the signed remainder, and the meaning of the signed comparisons, which the pass bounds as unsigned ones.
- The iteration that reaches nodes just replaced is not modelled as a traversal. `DynSchedDly.GeneratedRevisited` states that revisiting them changes nothing.
- SetCodegen.ApplySetEstablishes: proved only from values within ApplyInRange, because the min-only and max-only code does not reach the bounds from every value (`EdgeCases.MinOnlyOverflows`, `EdgeCases.MaxOnlySignedRemainder`).
- MultisetCodegen.ApplyMultiInBounds: the same range precondition, and fewer than 2^32 sets, because the choice is drawn in 32 bits.
- ConstraintMultisets.FoldExact: exact only when no leaf bound wraps and every signed comparison is sign-safe (`Exact`), because a wrapped bound makes the set hold for no value (`EdgeCases.GteZeroWraps`) and a signed comparison is bounded as an unsigned one (`EdgeCases.SignedGtMisbounded`).
- LeafExact: stated only for a leaf whose inclusive bound does not wrap (`NoWrap`) and, for a signed comparison, for valuations where both operands read the same signed as unsigned (`SignSafe`). On other inputs the set the pass builds disagrees with the leaf (`EdgeCases.GteZeroWraps`, `EdgeCases.SignedGtMisbounded`).
- AddConstraintExact: the same `NoWrap` and `SignSafe` hypotheses on every supported leaf (`ExactLeaves`), for the same reasons as LeafExact.
- RandomizedValuesSatisfy: needs values within ApplyInRange, fewer than 2^32 sets, and the constraint `Exact` on the final values. These are the hypotheses of ApplyMultiInBounds and FoldExact together.
- GroupEffect: proved only from values within ApplyInRange, for the reason given for ApplySetEstablishes.
- ApplyThenCheck: proved only from values within ApplyInRange, for the reason given for ApplySetEstablishes.
- ApplyMultiThenCheck: needs values within ApplyInRange for every set and fewer than 2^32 sets, for the reasons given for ApplyMultiInBounds.
- RandomizeSynthSpec.ClassRandStmts, RandomizeSynthSpec.ClassRandWarnings: state which statements and warnings newClassRandStmtsp emits, not their order (the chain nearest class first, members in declaration order) nor their multiplicity; the order is that of `ClassRand`'s own definition, which `NewClassRandStmts` follows.
- RandomizeSynth.RandomizeNetlist: the warnings it returns are not characterized for the netlist as a whole; per class and per call they are those `VisitClass` and `VisitCall` state.
- An AstExtend whose operand is not a variable reference is not modelled. getVarp casts that operand without a check and crashes. The model's `ExtendVar` holds only a variable, so such an operand is `OtherE` and is reported as an unsupported constraint instead.
