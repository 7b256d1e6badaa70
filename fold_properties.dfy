/** What one `func_extra_apply` call and a left-to-right fold of them do to the record. */
module FoldProperties {
  import opened Handles
  import opened Nb
  import opened FuncFlags
  import opened Detail

  // ---------------------------------------------------------------- one step

  /** `name`, `scope`, a docstring and `is_method` turn on exactly their own bit, store their
      payload in their own field, and leave the other fields, the slots and the cursor alone. */
  lemma StepMarker(r: Record, ann: Annotation, index: nat, j: bv4)
    requires ann.IsMarker()
    ensures var (r', i') := Step(r, ann, index);
      && i' == index && r'.args == r.args && r'.nargs == r.nargs
      && (Bit(r'.flags, j) <==> j == Position(MarkerFlag(ann)) || Bit(r.flags, j))
      && r'.name == (if ann.NameAnn? then ann.name else r.name)
      && r'.scope == (if ann.ScopeAnn? then ann.scope else r.scope)
      && r'.doc == (if ann.DocAnn? then ann.doc else r.doc)
  {
    SetFlagBit(r.flags, MarkerFlag(ann), j);
  }

  /** `rv_policy`: only the flag word changes; bits 0 and 1 become the policy's, the others are
      OR-ed with it, so a policy below 8 keeps bits 3..15. The cursor does not move. */
  lemma StepPolicy(r: Record, pol: bv16, index: nat, j: bv4)
    ensures var (r', i') := Step(r, PolicyAnn(pol), index);
      && i' == index && r'.(flags := r.flags) == r
      && (j < 2 ==> Bit(r'.flags, j) == Bit(pol, j))
      && (2 <= j ==> Bit(r'.flags, j) == (Bit(r.flags, j) || Bit(pol, j)))
      && (pol < 8 && 3 <= j ==> Bit(r'.flags, j) == Bit(r.flags, j))
  {
    PolicyAssignBit(r.flags, pol, j);
    if pol < 8 {
      PolicyAssignInRange(r.flags, pol, j);
    }
  }

  /** `arg` and `arg_v` fill slot `index` and advance the cursor by one; the header and every
      other slot are unchanged, and the filled slot keeps its `name_py`. */
  lemma StepArg(r: Record, ann: Annotation, index: nat)
    requires ann.IsArg() && index < |r.args|
    ensures var (r', i') := Step(r, ann, index);
      && i' == index + 1 && r'.(args := r.args) == r
      && r'.args[index] == Filled(r.args[index], ann)
      && r'.args[index].namePy == r.args[index].namePy
      && forall k | 0 <= k < |r.args| && k != index :: r'.args[k] == r.args[k]
  {
  }

  /** Applying two markers of the same kind is the same as applying the second alone: the last
      value wins, and `is_method` is idempotent. */
  lemma StepMarkerLastWins(r: Record, a: Annotation, b: Annotation, index: nat)
    requires a.IsMarker() && b.IsMarker() && MarkerFlag(a) == MarkerFlag(b)
    ensures Step(Step(r, a, index).0, b, index) == Step(r, b, index)
  {
    SetFlagIdempotent(r.flags, MarkerFlag(b));
  }

  /** Two policies in a row: the second erases the first exactly when the first adds no bit 2
      that neither the second nor the original flag word has. */
  lemma StepPolicyTwice(r: Record, p: bv16, q: bv16, index: nat)
    requires p < 8 && q < 8
    ensures Step(Step(r, PolicyAnn(p), index).0, PolicyAnn(q), index) == Step(r, PolicyAnn(q), index)
        <==> (!Bit(p, 2) || Bit(q, 2) || Bit(r.flags, 2))
  {
    PolicyOverwriteIff(r.flags, p, q);
  }

  /** An annotation that is not an argument commutes with any annotation of another kind. */
  lemma StepsCommute(r: Record, a: Annotation, b: Annotation, index: nat)
    requires !a.IsArg()
    requires !(a.IsMarker() && b.IsMarker() && MarkerFlag(a) == MarkerFlag(b))
    requires !(a.PolicyAnn? && b.PolicyAnn?)
    requires b.IsArg() ==> index < |r.args|
    ensures var (ra, ia) := Step(r, a, index);
            var (rb, ib) := Step(r, b, index);
            Step(ra, b, ia) == Step(rb, a, ib)
  {
    if a.IsMarker() && b.IsMarker() {
      SetFlagsCommute(r.flags, MarkerFlag(a), MarkerFlag(b));
    } else if a.IsMarker() && b.PolicyAnn? {
      SetFlagPolicyCommute(r.flags, MarkerFlag(a), b.pol);
    } else if a.PolicyAnn? && b.IsMarker() {
      SetFlagPolicyCommute(r.flags, MarkerFlag(b), a.pol);
    }
  }

  /** One step sets the bit of flag `f` exactly when it was set or the step supplies `f`. */
  lemma StepFlag(r: Record, a: Annotation, index: nat, f: FuncFlag)
    requires a.IsArg() ==> index < |r.args|
    requires a.PolicyAnn? ==> a.pol < 8
    ensures Bit(Step(r, a, index).0.flags, Position(f)) <==> Bit(r.flags, Position(f)) || Supplies(a, f)
  {
    if a.IsMarker() {
      SetFlagBit(r.flags, MarkerFlag(a), Position(f));
      MasksDisjoint(MarkerFlag(a), f);
    } else if a.PolicyAnn? {
      PolicyAssignInRange(r.flags, a.pol, Position(f));
    }
  }

  /** One step changes bits 0..2 only when it is a policy: bits 0-1 become the policy's and
      bit 2 is OR-ed with it. */
  lemma StepPolicyBit(r: Record, a: Annotation, index: nat, j: bv4)
    requires a.IsArg() ==> index < |r.args|
    requires j <= 2
    ensures j < 2 ==> Bit(Step(r, a, index).0.flags, j) == if a.PolicyAnn? then Bit(a.pol, j) else Bit(r.flags, j)
    ensures j == 2 ==> Bit(Step(r, a, index).0.flags, j) == (Bit(r.flags, j) || (a.PolicyAnn? && Bit(a.pol, j)))
  {
    if a.IsMarker() {
      SetFlagBit(r.flags, MarkerFlag(a), j);
    } else if a.PolicyAnn? {
      PolicyAssignBit(r.flags, a.pol, j);
    }
  }

  /** One step changes the field of flag `f` only when it supplies `f`, and then to its payload. */
  lemma StepField(r: Record, a: Annotation, index: nat, f: FuncFlag)
    requires a.IsArg() ==> index < |r.args|
    ensures FieldOf(Step(r, a, index).0, f) == if Supplies(a, f) then PayloadOf(a) else FieldOf(r, f)
  {
  }

  // ---------------------------------------------------------------- the fold

  /** Every policy code in the list is one of the eight `rv_policy` values. */
  ghost predicate PoliciesInRange(anns: seq<Annotation>)
  {
    forall k | 0 <= k < |anns| :: anns[k].PolicyAnn? ==> anns[k].pol < 8
  }

  /** The rest of a list whose policies are all in range has its policies in range. */
  lemma PoliciesInRangeTail(anns: seq<Annotation>)
    requires anns != [] && PoliciesInRange(anns)
    ensures PoliciesInRange(anns[1..])
  {
    forall k | 0 <= k < |anns[1..]| ensures anns[1..][k].PolicyAnn? ==> anns[1..][k].pol < 8 {
      assert anns[1..][k] == anns[k + 1];
    }
  }

  /** The annotation stores a field and turns on flag `f`. */
  predicate Supplies(ann: Annotation, f: FuncFlag)
  {
    ann.IsMarker() && MarkerFlag(ann) == f
  }

  /** Two lists with the same argument annotations in the same order produce the same slots. */
  lemma FoldArgsIgnoreOthers(r: Record, anns: seq<Annotation>, others: seq<Annotation>, index: nat)
    requires ArgItems(anns) == ArgItems(others)
    requires index + |ArgItems(anns)| <= |r.args|
    ensures Fold(r, anns, index).0.args == Fold(r, others, index).0.args
    ensures Fold(r, anns, index).1 == Fold(r, others, index).1
  {
    FoldArgs(r, anns, index);
    FoldArgs(r, others, index);
    FoldCursor(r, anns, index);
    FoldCursor(r, others, index);
  }

  /** A flag bit is set after the fold exactly when it was set before or some annotation in the
      list supplies it; flags no annotation supplies keep their value. */
  lemma {:induction false} FoldFlag(r: Record, anns: seq<Annotation>, index: nat, f: FuncFlag)
    requires index + |ArgItems(anns)| <= |r.args|
    requires PoliciesInRange(anns)
    ensures Bit(Fold(r, anns, index).0.flags, Position(f))
        <==> Bit(r.flags, Position(f)) || exists k | 0 <= k < |anns| :: Supplies(anns[k], f)
    decreases |anns|
  {
    if anns != [] {
      var a := anns[0];
      var (r1, i1) := Step(r, a, index);
      PoliciesInRangeTail(anns);
      FoldFlag(r1, anns[1..], i1, f);
      assert a.PolicyAnn? ==> a.pol < 8;
      StepFlag(r, a, index, f);
      if exists k | 0 <= k < |anns[1..]| :: Supplies(anns[1..][k], f) {
        var k :| 0 <= k < |anns[1..]| && Supplies(anns[1..][k], f);
        assert anns[k + 1] == anns[1..][k];
      }
      if exists k | 0 <= k < |anns| :: Supplies(anns[k], f) {
        var k :| 0 <= k < |anns| && Supplies(anns[k], f);
        if k > 0 {
          assert anns[1..][k - 1] == anns[k];
        }
      }
    }
  }

  /** The payload a marker carries. */
  datatype Payload = StrPayload(s: CStr) | ObjPayload(o: PyObj) | NoPayload

  function PayloadOf(ann: Annotation): Payload
    requires ann.IsMarker()
  {
    match ann
    case NameAnn(n) => StrPayload(n)
    case ScopeAnn(s) => ObjPayload(s)
    case DocAnn(d) => StrPayload(d)
    case MethodAnn => NoPayload
  }

  /** The record field whose presence flag `f` records (`is_method` and the flags set outside
      the fold have none). */
  function FieldOf(r: Record, f: FuncFlag): Payload
  {
    match f
    case HasName => StrPayload(r.name)
    case HasScope => ObjPayload(r.scope)
    case HasDoc => StrPayload(r.doc)
    case _ => NoPayload
  }

  /** `anns[k]` supplies `f` and no later annotation does. */
  ghost predicate LastSupplier(anns: seq<Annotation>, k: nat, f: FuncFlag)
  {
    k < |anns| && Supplies(anns[k], f) && forall m | k < m < |anns| :: !Supplies(anns[m], f)
  }

  /** `anns[k]` is a policy and no later annotation is. */
  ghost predicate LastPolicy(anns: seq<Annotation>, k: nat)
  {
    k < |anns| && anns[k].PolicyAnn? && forall m | k < m < |anns| :: !anns[m].PolicyAnn?
  }

  /** Last wins: after the fold, the name, scope and doc fields hold the payload of the last
      annotation of their kind, and keep their old value when there is none. */
  lemma {:induction false} FoldLastWins(r: Record, anns: seq<Annotation>, index: nat, f: FuncFlag)
    requires index + |ArgItems(anns)| <= |r.args|
    ensures (forall k | 0 <= k < |anns| :: !Supplies(anns[k], f))
        ==> FieldOf(Fold(r, anns, index).0, f) == FieldOf(r, f)
    ensures forall k: nat | LastSupplier(anns, k, f) :: FieldOf(Fold(r, anns, index).0, f) == PayloadOf(anns[k])
    decreases |anns|
  {
    if anns != [] {
      var a := anns[0];
      var tail := anns[1..];
      var (r1, i1) := Step(r, a, index);
      FoldLastWins(r1, tail, i1, f);
      StepField(r, a, index, f);
      forall k: nat | LastSupplier(anns, k, f)
        ensures FieldOf(Fold(r, anns, index).0, f) == PayloadOf(anns[k])
      {
        if k == 0 {
          forall m | 0 <= m < |tail| ensures !Supplies(tail[m], f) {
            assert tail[m] == anns[m + 1];
          }
        } else {
          assert tail[k - 1] == anns[k];
          forall m | k - 1 < m < |tail| ensures !Supplies(tail[m], f) {
            assert tail[m] == anns[m + 1];
          }
          assert LastSupplier(tail, k - 1, f);
        }
      }
      if forall k | 0 <= k < |anns| :: !Supplies(anns[k], f) {
        forall m | 0 <= m < |tail| ensures !Supplies(tail[m], f) {
          assert tail[m] == anns[m + 1];
        }
      }
    }
  }

  /** Bits 0 and 1 of the flag word end up as those of the last policy applied, or keep their
      value when no policy is applied. */
  lemma {:induction false} FoldPolicyLowBits(r: Record, anns: seq<Annotation>, index: nat, j: bv4)
    requires index + |ArgItems(anns)| <= |r.args|
    requires j < 2
    ensures (forall k | 0 <= k < |anns| :: !anns[k].PolicyAnn?)
        ==> Bit(Fold(r, anns, index).0.flags, j) == Bit(r.flags, j)
    ensures forall k: nat | LastPolicy(anns, k) :: Bit(Fold(r, anns, index).0.flags, j) == Bit(anns[k].pol, j)
    decreases |anns|
  {
    if anns != [] {
      var a := anns[0];
      var tail := anns[1..];
      var (r1, i1) := Step(r, a, index);
      FoldPolicyLowBits(r1, tail, i1, j);
      StepPolicyBit(r, a, index, j);
      forall k: nat | LastPolicy(anns, k)
        ensures Bit(Fold(r, anns, index).0.flags, j) == Bit(anns[k].pol, j)
      {
        if k == 0 {
          forall m | 0 <= m < |tail| ensures !tail[m].PolicyAnn? {
            assert tail[m] == anns[m + 1];
          }
        } else {
          assert tail[k - 1] == anns[k];
          forall m | k - 1 < m < |tail| ensures !tail[m].PolicyAnn? {
            assert tail[m] == anns[m + 1];
          }
          assert LastPolicy(tail, k - 1);
        }
      }
      if forall k | 0 <= k < |anns| :: !anns[k].PolicyAnn? {
        forall m | 0 <= m < |tail| ensures !tail[m].PolicyAnn? {
          assert tail[m] == anns[m + 1];
        }
      }
    }
  }

  /** Bit 2, reserved for the policy, is never cleared by the fold: it ends up set exactly when
      it was set before or some policy applied has it. */
  lemma {:induction false} FoldPolicyBit2(r: Record, anns: seq<Annotation>, index: nat)
    requires index + |ArgItems(anns)| <= |r.args|
    ensures Bit(Fold(r, anns, index).0.flags, 2)
        <==> Bit(r.flags, 2) || exists k | 0 <= k < |anns| :: anns[k].PolicyAnn? && Bit(anns[k].pol, 2)
    decreases |anns|
  {
    if anns != [] {
      var a := anns[0];
      var tail := anns[1..];
      var (r1, i1) := Step(r, a, index);
      FoldPolicyBit2(r1, tail, i1);
      StepPolicyBit(r, a, index, 2);
      if exists k | 0 <= k < |tail| :: tail[k].PolicyAnn? && Bit(tail[k].pol, 2) {
        var k :| 0 <= k < |tail| && tail[k].PolicyAnn? && Bit(tail[k].pol, 2);
        assert anns[k + 1] == tail[k];
      }
      if exists k | 0 <= k < |anns| :: anns[k].PolicyAnn? && Bit(anns[k].pol, 2) {
        var k :| 0 <= k < |anns| && anns[k].PolicyAnn? && Bit(anns[k].pol, 2);
        if k > 0 {
          assert tail[k - 1] == anns[k];
        }
      }
    }
  }

  /** Bits 3, 14 and 15 belong to no annotation: one step with a policy below 8 keeps them. */
  lemma StepKeepsSpareBits(r: Record, a: Annotation, index: nat, j: bv4)
    requires a.IsArg() ==> index < |r.args|
    requires a.PolicyAnn? ==> a.pol < 8
    requires j == 3 || j >= 14
    ensures Bit(Step(r, a, index).0.flags, j) == Bit(r.flags, j)
  {
    if a.IsMarker() {
      StepMarker(r, a, index, j);
    } else if a.PolicyAnn? {
      StepPolicy(r, a.pol, index, j);
    }
  }

  /** The fold leaves bits 3, 14 and 15 as they were when every policy is below 8. */
  lemma {:induction false} FoldKeepsSpareBits(r: Record, anns: seq<Annotation>, index: nat, j: bv4)
    requires index + |ArgItems(anns)| <= |r.args|
    requires PoliciesInRange(anns)
    requires j == 3 || j >= 14
    ensures Bit(Fold(r, anns, index).0.flags, j) == Bit(r.flags, j)
    decreases |anns|
  {
    if anns != [] {
      var (r1, i1) := Step(r, anns[0], index);
      PoliciesInRangeTail(anns);
      FoldKeepsSpareBits(r1, anns[1..], i1, j);
      StepKeepsSpareBits(r, anns[0], index, j);
    }
  }

  // ---------------------------------------------------------------- order of annotations

  /** Two annotations of the same kind: markers of the same flag, or two policies. */
  predicate SameKind(a: Annotation, b: Annotation)
  {
    (a.IsMarker() && b.IsMarker() && MarkerFlag(a) == MarkerFlag(b)) || (a.PolicyAnn? && b.PolicyAnn?)
  }

  /** No two annotations of the list are of the same kind. */
  ghost predicate KindsOnce(anns: seq<Annotation>)
  {
    forall k, m | 0 <= k < m < |anns| :: !SameKind(anns[k], anns[m])
  }

  /** Every annotation of `xs` other than `arg` and `arg_v` is also in `ys`. */
  ghost predicate SameOthers(xs: seq<Annotation>, ys: seq<Annotation>)
  {
    forall a: Annotation | !a.IsArg() && a in xs :: a in ys
  }

  /** In a list without repeated kinds, an annotation supplying `f` is its last supplier. */
  lemma OnlySupplierIsLast(anns: seq<Annotation>, k: nat, f: FuncFlag)
    requires KindsOnce(anns) && k < |anns| && Supplies(anns[k], f)
    ensures LastSupplier(anns, k, f)
  {
    forall m | k < m < |anns| ensures !Supplies(anns[m], f) {
      assert !SameKind(anns[k], anns[m]);
    }
  }

  /** In a list without repeated kinds, a policy is the last policy. */
  lemma OnlyPolicyIsLast(anns: seq<Annotation>, k: nat)
    requires KindsOnce(anns) && k < |anns| && anns[k].PolicyAnn?
    ensures LastPolicy(anns, k)
  {
    forall m | k < m < |anns| ensures !anns[m].PolicyAnn? {
      assert !SameKind(anns[k], anns[m]);
    }
  }

  /** A non-argument annotation of one list is in the other. */
  lemma OtherIn(xs: seq<Annotation>, ys: seq<Annotation>, k: nat) returns (m: nat)
    requires SameOthers(xs, ys) && k < |xs| && !xs[k].IsArg()
    ensures m < |ys| && ys[m] == xs[k]
  {
    assert xs[k] in xs;
    assert xs[k] in ys;
    m :| 0 <= m < |ys| && ys[m] == xs[k];
  }

  /** Bits 0 and 1 after folding a list with at most one policy: that policy's, or unchanged. */
  lemma FoldOnlyPolicyLowBits(r: Record, anns: seq<Annotation>, index: nat, j: bv4)
    requires index + |ArgItems(anns)| <= |r.args| && KindsOnce(anns) && j < 2
    ensures forall k | 0 <= k < |anns| && anns[k].PolicyAnn? ::
      Bit(Fold(r, anns, index).0.flags, j) == Bit(anns[k].pol, j)
    ensures (forall k | 0 <= k < |anns| :: !anns[k].PolicyAnn?)
        ==> Bit(Fold(r, anns, index).0.flags, j) == Bit(r.flags, j)
  {
    FoldPolicyLowBits(r, anns, index, j);
    forall k | 0 <= k < |anns| && anns[k].PolicyAnn? {
      OnlyPolicyIsLast(anns, k);
    }
  }

  /** The field of flag `f` after folding a list with at most one supplier: its payload, or
      unchanged. */
  lemma FoldOnlySupplier(r: Record, anns: seq<Annotation>, index: nat, f: FuncFlag)
    requires index + |ArgItems(anns)| <= |r.args| && KindsOnce(anns)
    ensures forall k | 0 <= k < |anns| && Supplies(anns[k], f) ::
      FieldOf(Fold(r, anns, index).0, f) == PayloadOf(anns[k])
    ensures (forall k | 0 <= k < |anns| :: !Supplies(anns[k], f))
        ==> FieldOf(Fold(r, anns, index).0, f) == FieldOf(r, f)
  {
    FoldLastWins(r, anns, index, f);
    forall k | 0 <= k < |anns| && Supplies(anns[k], f) {
      OnlySupplierIsLast(anns, k, f);
    }
  }

  /** Two such lists agree on whether some annotation supplies `f`. */
  lemma SupplierAgrees(xs: seq<Annotation>, ys: seq<Annotation>, f: FuncFlag)
    requires SameOthers(xs, ys) && SameOthers(ys, xs)
    ensures (exists k | 0 <= k < |xs| :: Supplies(xs[k], f)) <==> (exists k | 0 <= k < |ys| :: Supplies(ys[k], f))
  {
    if k :| 0 <= k < |xs| && Supplies(xs[k], f) {
      var m := OtherIn(xs, ys, k);
    }
    if k :| 0 <= k < |ys| && Supplies(ys[k], f) {
      var m := OtherIn(ys, xs, k);
    }
  }

  /** Two such lists agree on whether they hold a policy, and on whether one has bit 2. */
  lemma PolicyAgrees(xs: seq<Annotation>, ys: seq<Annotation>)
    requires SameOthers(xs, ys) && SameOthers(ys, xs)
    ensures (exists k | 0 <= k < |xs| :: xs[k].PolicyAnn?) <==> (exists k | 0 <= k < |ys| :: ys[k].PolicyAnn?)
    ensures (exists k | 0 <= k < |xs| :: xs[k].PolicyAnn? && Bit(xs[k].pol, 2))
        <==> (exists k | 0 <= k < |ys| :: ys[k].PolicyAnn? && Bit(ys[k].pol, 2))
  {
    if k :| 0 <= k < |xs| && xs[k].PolicyAnn? {
      var m := OtherIn(xs, ys, k);
    }
    if k :| 0 <= k < |ys| && ys[k].PolicyAnn? {
      var m := OtherIn(ys, xs, k);
    }
    if k :| 0 <= k < |xs| && xs[k].PolicyAnn? && Bit(xs[k].pol, 2) {
      var m := OtherIn(xs, ys, k);
    }
    if k :| 0 <= k < |ys| && ys[k].PolicyAnn? && Bit(ys[k].pol, 2) {
      var m := OtherIn(ys, xs, k);
    }
  }

  /** Bit `j` of the flag word comes out the same from two lists with the same non-argument
      annotations, each kind at most once. */
  lemma OrderBitAgrees(r: Record, xs: seq<Annotation>, ys: seq<Annotation>, index: nat, j: bv4)
    requires index + |ArgItems(xs)| <= |r.args| && index + |ArgItems(ys)| <= |r.args|
    requires SameOthers(xs, ys) && SameOthers(ys, xs) && KindsOnce(xs) && KindsOnce(ys)
    requires PoliciesInRange(xs) && PoliciesInRange(ys)
    ensures Bit(Fold(r, xs, index).0.flags, j) == Bit(Fold(r, ys, index).0.flags, j)
  {
    PolicyAgrees(xs, ys);
    if j < 2 {
      FoldOnlyPolicyLowBits(r, xs, index, j);
      FoldOnlyPolicyLowBits(r, ys, index, j);
      if k :| 0 <= k < |xs| && xs[k].PolicyAnn? {
        var m := OtherIn(xs, ys, k);
      }
    } else if j == 2 {
      FoldPolicyBit2(r, xs, index);
      FoldPolicyBit2(r, ys, index);
    } else if j == 3 || j >= 14 {
      FoldKeepsSpareBits(r, xs, index, j);
      FoldKeepsSpareBits(r, ys, index, j);
    } else {
      var f := FlagAt(j);
      FoldFlag(r, xs, index, f);
      FoldFlag(r, ys, index, f);
      SupplierAgrees(xs, ys, f);
    }
  }

  /** Two values fixed by the lists the same way, as the payload of the supplier of `f` or
      `base` when there is none, are equal. */
  lemma PayloadAgrees(xs: seq<Annotation>, ys: seq<Annotation>, f: FuncFlag, px: Payload, py: Payload, base: Payload)
    requires SameOthers(xs, ys) && SameOthers(ys, xs)
    requires forall k | 0 <= k < |xs| && Supplies(xs[k], f) :: px == PayloadOf(xs[k])
    requires (forall k | 0 <= k < |xs| :: !Supplies(xs[k], f)) ==> px == base
    requires forall k | 0 <= k < |ys| && Supplies(ys[k], f) :: py == PayloadOf(ys[k])
    requires (forall k | 0 <= k < |ys| :: !Supplies(ys[k], f)) ==> py == base
    ensures px == py
  {
    SupplierAgrees(xs, ys, f);
    if k :| 0 <= k < |xs| && Supplies(xs[k], f) {
      var m := OtherIn(xs, ys, k);
    }
  }

  /** The field of flag `f` comes out the same from two such lists. */
  lemma OrderFieldAgrees(r: Record, xs: seq<Annotation>, ys: seq<Annotation>, index: nat, f: FuncFlag)
    requires index + |ArgItems(xs)| <= |r.args| && index + |ArgItems(ys)| <= |r.args|
    requires SameOthers(xs, ys) && SameOthers(ys, xs) && KindsOnce(xs) && KindsOnce(ys)
    ensures FieldOf(Fold(r, xs, index).0, f) == FieldOf(Fold(r, ys, index).0, f)
  {
    FoldOnlySupplier(r, xs, index, f);
    FoldOnlySupplier(r, ys, index, f);
    PayloadAgrees(xs, ys, f, FieldOf(Fold(r, xs, index).0, f), FieldOf(Fold(r, ys, index).0, f), FieldOf(r, f));
  }

  /** Order does not matter: two lists with the same `arg`/`arg_v` annotations in the same
      order and the same other annotations, each kind at most once, fold to the same record
      and cursor. */
  lemma FoldOrderIrrelevant(r: Record, xs: seq<Annotation>, ys: seq<Annotation>, index: nat)
    requires ArgItems(xs) == ArgItems(ys) && index + |ArgItems(xs)| <= |r.args|
    requires SameOthers(xs, ys) && SameOthers(ys, xs) && KindsOnce(xs) && KindsOnce(ys)
    requires PoliciesInRange(xs) && PoliciesInRange(ys)
    ensures Fold(r, xs, index) == Fold(r, ys, index)
  {
    var (rx, ix) := Fold(r, xs, index);
    var (ry, iy) := Fold(r, ys, index);
    forall j: bv4 ensures Bit(rx.flags, j) == Bit(ry.flags, j) {
      OrderBitAgrees(r, xs, ys, index, j);
    }
    WordFromBits(rx.flags, ry.flags);
    OrderFieldAgrees(r, xs, ys, index, HasName);
    OrderFieldAgrees(r, xs, ys, index, HasScope);
    OrderFieldAgrees(r, xs, ys, index, HasDoc);
    FoldArgsIgnoreOthers(r, xs, ys, index);
  }

  // ---------------------------------------------------------------- two worked folds

  /** A name, a plain `arg` and an `arg_v` folded into a two-slot record. */
  lemma ScenarioNameAndTwoArgs(x: ArgSpec, y: ArgSpec, v: PyObj)
    ensures var r := Record(2, 0, NullStr, NullStr, NullObj, [Blank, Blank]);
      var anns := [NameAnn(Text("add")), ArgAnn(x), ArgVAnn(ArgV(y, v))];
      var (res, i) := Fold(r, anns, 0);
      && i == 2
      && res.name == Text("add") && Bit(res.flags, Position(HasName))
      && !Bit(res.flags, Position(HasDoc)) && !Bit(res.flags, Position(HasScope))
      && res.args == [ArgData(x.name, NullObj, NullObj, x.convert, x.none),
                      ArgData(y.name, NullObj, v, y.convert, y.none)]
  {
    var r := Record(2, 0, NullStr, NullStr, NullObj, [Blank, Blank]);
    var anns := [NameAnn(Text("add")), ArgAnn(x), ArgVAnn(ArgV(y, v))];
    assert anns[1..] == [ArgAnn(x), ArgVAnn(ArgV(y, v))] && anns[2..] == [ArgVAnn(ArgV(y, v))];
    assert ArgItems(anns[2..]) == [anns[2]] by {
      assert anns[2..][1..] == [];
    }
    assert |ArgItems(anns)| == 2 by {
      assert anns[1..][1..] == anns[2..];
    }
    var (r1, i1) := Step(r, anns[0], 0);
    var (r2, i2) := Step(r1, anns[1], i1);
    var (r3, i3) := Step(r2, anns[2], i2);
    assert Fold(r2, anns[2..], i2) == (r3, i3) by {
      assert anns[2..][1..] == [];
    }
    assert Fold(r1, anns[1..], i1) == (r3, i3) by {
      assert anns[1..][1..] == anns[2..];
    }
    assert Fold(r, anns, 0) == (r3, i3);
    StepMarker(r, anns[0], 0, Position(HasName));
    StepMarker(r, anns[0], 0, Position(HasDoc));
    StepMarker(r, anns[0], 0, Position(HasScope));
  }

  /** `is_method` and one policy folded into an empty record: the method bit and exactly the
      policy in the three low bits; no name, scope or doc bit. */
  lemma ScenarioMethodAndPolicy(pol: bv16)
    requires pol < 8
    ensures var r := Record(0, 0, NullStr, NullStr, NullObj, []);
      var (res, i) := Fold(r, [MethodAnn, PolicyAnn(pol)], 0);
      && i == 0 && res.args == []
      && Bit(res.flags, Position(IsMethod)) && res.flags & 7 == pol
      && !Bit(res.flags, Position(HasName)) && !Bit(res.flags, Position(HasScope))
      && !Bit(res.flags, Position(HasDoc))
  {
    var r := Record(0, 0, NullStr, NullStr, NullObj, []);
    var anns := [MethodAnn, PolicyAnn(pol)];
    var (r1, i1) := Step(r, anns[0], 0);
    var (r2, i2) := Step(r1, anns[1], i1);
    assert Fold(r1, anns[1..], i1) == (r2, i2) by {
      assert anns[1..][1..] == [];
    }
    assert Fold(r, anns, 0) == (r2, i2);
    StepMarkerThenPolicy(pol);
  }

  lemma StepMarkerThenPolicy(pol: bv16)
    requires pol < 8
    ensures var flags := PolicyAssign(SetFlag(0, IsMethod), pol);
      && Bit(flags, Position(IsMethod)) && flags & 7 == pol
      && !Bit(flags, Position(HasName)) && !Bit(flags, Position(HasScope)) && !Bit(flags, Position(HasDoc))
  {
    assert SetFlag(0, IsMethod) == 0x400;
  }
}
