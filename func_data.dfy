/** The function record `func_data<Size>` and the overload set `func_extra_apply` that folds
    annotations into it (namespace `detail`). */
module Detail {
  import opened Handles
  import opened Nb
  import opened FuncFlags

  /** `arg_data`: one slot of the record's argument array. */
  datatype ArgData = ArgData(name: CStr, namePy: PyObj, value: PyObj, convert: bool, none: bool)

  /** The closed set of annotation types `func_extra_apply` has an overload for. */
  datatype Annotation =
    | NameAnn(name: CStr)    // nb::name
    | ScopeAnn(scope: PyObj) // nb::scope, already reduced to its object pointer
    | DocAnn(doc: CStr)      // a plain `const char *` docstring
    | MethodAnn              // nb::is_method
    | PolicyAnn(pol: bv16)   // rv_policy, as the value `(uint16_t) pol`
    | ArgAnn(arg: ArgSpec)   // nb::arg
    | ArgVAnn(argv: ArgV)    // nb::arg_v
  {
    /** The two kinds that consume an argument slot. */
    predicate IsArg() {
      ArgAnn? || ArgVAnn?
    }

    /** The kinds that store a field and turn on its flag, and `is_method`. */
    predicate IsMarker() {
      NameAnn? || ScopeAnn? || DocAnn? || MethodAnn?
    }
  }

  /** The flag a marker annotation turns on. */
  function MarkerFlag(ann: Annotation): (f: FuncFlag)
    requires ann.IsMarker()
  {
    match ann
    case NameAnn(_) => HasName
    case ScopeAnn(_) => HasScope
    case DocAnn(_) => HasDoc
    case MethodAnn => IsMethod
  }

  /** The record as a value: the header fields the fold can reach and the argument array.
      (`capture`, `free`, `impl`, `descr` and `descr_types` are not modelled.) */
  datatype Record = Record(nargs: bv16, flags: bv16, name: CStr, doc: CStr, scope: PyObj, args: seq<ArgData>)

  /** The slot an argument annotation leaves behind: name and both policies from the `arg`,
      the default value's pointer (null for a plain `arg`), and the slot's old `name_py`. */
  function Filled(slot: ArgData, ann: Annotation): (s: ArgData)
    requires ann.IsArg()
    ensures s.namePy == slot.namePy
    ensures ann.ArgAnn? ==> s == ArgData(ann.arg.name, slot.namePy, NullObj, ann.arg.convert, ann.arg.none)
    ensures ann.ArgVAnn? ==> s == ArgData(ann.argv.base.name, slot.namePy, ann.argv.value, ann.argv.base.convert, ann.argv.base.none)
  {
    match ann
    case ArgAnn(a) => slot.(name := a.name, value := NullObj, convert := a.convert, none := a.none)
    case ArgVAnn(v) => slot.(name := v.base.name, value := v.value, convert := v.base.convert, none := v.base.none)
  }

  /** One `func_extra_apply(f, ann, index)`: the new record and the new cursor. */
  function Step(r: Record, ann: Annotation, index: nat): (res: (Record, nat))
    requires ann.IsArg() ==> index < |r.args|
    ensures |res.0.args| == |r.args| && res.0.nargs == r.nargs
    ensures res.1 == if ann.IsArg() then index + 1 else index
    ensures !ann.IsArg() ==> res.0.args == r.args
    ensures ann.IsArg() ==> res.0.args == r.args[index := Filled(r.args[index], ann)]
  {
    match ann
    case NameAnn(n) => (r.(name := n, flags := SetFlag(r.flags, HasName)), index)
    case ScopeAnn(s) => (r.(scope := s, flags := SetFlag(r.flags, HasScope)), index)
    case DocAnn(d) => (r.(doc := d, flags := SetFlag(r.flags, HasDoc)), index)
    case MethodAnn => (r.(flags := SetFlag(r.flags, IsMethod)), index)
    case PolicyAnn(pol) => (r.(flags := PolicyAssign(r.flags, pol)), index)
    case ArgAnn(_) => (r.(args := r.args[index := Filled(r.args[index], ann)]), index + 1)
    case ArgVAnn(_) => (r.(args := r.args[index := Filled(r.args[index], ann)]), index + 1)
  }

  /** The argument annotations of a list, in order. */
  function ArgItems(anns: seq<Annotation>): (items: seq<Annotation>)
    ensures |items| <= |anns|
    ensures forall k | 0 <= k < |items| :: items[k].IsArg()
  {
    if anns == [] then []
    else (if anns[0].IsArg() then [anns[0]] else []) + ArgItems(anns[1..])
  }

  /** Applying a list of annotations left to right, threading the shared cursor. */
  function Fold(r: Record, anns: seq<Annotation>, index: nat): (res: (Record, nat))
    requires index + |ArgItems(anns)| <= |r.args|
    ensures |res.0.args| == |r.args| && res.0.nargs == r.nargs
    decreases |anns|
  {
    if anns == [] then (r, index)
    else
      var (r1, i1) := Step(r, anns[0], index);
      Fold(r1, anns[1..], i1)
  }

  /** The final cursor is the start plus the number of `arg`/`arg_v` annotations. */
  lemma {:induction false} FoldCursor(r: Record, anns: seq<Annotation>, index: nat)
    requires index + |ArgItems(anns)| <= |r.args|
    ensures Fold(r, anns, index).1 == index + |ArgItems(anns)|
    decreases |anns|
  {
    if anns != [] {
      var (r1, i1) := Step(r, anns[0], index);
      FoldCursor(r1, anns[1..], i1);
    }
  }

  /** Slot `index + m` holds the m-th argument annotation, whatever else is interleaved; the
      slots before the start and after the last one written are unchanged. */
  lemma {:induction false} FoldArgs(r: Record, anns: seq<Annotation>, index: nat)
    requires index + |ArgItems(anns)| <= |r.args|
    ensures var res := Fold(r, anns, index).0;
      forall k | 0 <= k < |r.args| ::
        res.args[k] == if index <= k < index + |ArgItems(anns)|
                       then Filled(r.args[k], ArgItems(anns)[k - index])
                       else r.args[k]
    decreases |anns|
  {
    if anns != [] {
      var (r1, i1) := Step(r, anns[0], index);
      FoldArgs(r1, anns[1..], i1);
    }
  }

  /** From cursor 0: the cursor ends at the argument count and slot k holds the k-th argument. */
  lemma FoldFromStart(r: Record, anns: seq<Annotation>)
    requires |ArgItems(anns)| <= |r.args|
    ensures Fold(r, anns, 0).1 == |ArgItems(anns)|
    ensures forall k | 0 <= k < |r.args| ::
      Fold(r, anns, 0).0.args[k] == if k < |ArgItems(anns)| then Filled(r.args[k], ArgItems(anns)[k]) else r.args[k]
  {
    FoldCursor(r, anns, 0);
    FoldArgs(r, anns, 0);
  }

  /** A slot with null pointers and the `arg` defaults, used as the starting content in examples. */
  const Blank := ArgData(NullStr, NullObj, NullObj, true, false)

  /** `func_data<Size>` under construction. */
  class FuncData {
    var nargs: bv16
    var flags: bv16
    var name: CStr
    var doc: CStr
    var scope: PyObj
    const args: array<ArgData>

    function View(): Record
      reads this, args
    {
      Record(nargs, flags, name, doc, scope, args[..])
    }

    /** A record as its creator hands it to the fold. `func_data` has no constructor of its own,
        so every field, the slots included, holds whatever the creator left in it. */
    constructor (nargs: bv16, flags: bv16, name: CStr, doc: CStr, scope: PyObj, slots: seq<ArgData>)
      ensures fresh(args) && args.Length == |slots|
      ensures View() == Record(nargs, flags, name, doc, scope, slots)
    {
      this.nargs, this.flags := nargs, flags;
      this.name, this.doc, this.scope := name, doc, scope;
      args := new ArgData[|slots|](k requires 0 <= k < |slots| => slots[k]);
    }

    /** `func_extra_apply(*this, ann, index)`, returning the advanced cursor. */
    method Apply(ann: Annotation, index: nat) returns (next: nat)
      requires ann.IsArg() ==> index < args.Length
      modifies this, args
      ensures (View(), next) == Step(old(View()), ann, index)
    {
      next := index;
      match ann
      case NameAnn(n) =>
        name := n;
        flags := SetFlag(flags, HasName);
      case ScopeAnn(s) =>
        scope := s;
        flags := SetFlag(flags, HasScope);
      case DocAnn(d) =>
        doc := d;
        flags := SetFlag(flags, HasDoc);
      case MethodAnn =>
        flags := SetFlag(flags, IsMethod);
      case PolicyAnn(pol) =>
        flags := PolicyAssign(flags, pol);
      case ArgAnn(a) =>
        args[index] := args[index].(name := a.name, value := NullObj, convert := a.convert, none := a.none);
        next := index + 1;
      case ArgVAnn(v) =>
        args[index] := args[index].(name := v.base.name, value := v.value, convert := v.base.convert, none := v.base.none);
        next := index + 1;
    }

    /** The whole annotation list applied in order from cursor 0; returns the final cursor. */
    method ApplyAll(anns: seq<Annotation>) returns (index: nat)
      requires |ArgItems(anns)| <= args.Length
      modifies this, args
      ensures (View(), index) == Fold(old(View()), anns, 0)
      ensures index == |ArgItems(anns)|
      ensures forall k | 0 <= k < args.Length ::
        args[k] == if k < index then Filled(old(args[k]), ArgItems(anns)[k]) else old(args[k])
    {
      ghost var before := View();
      index := 0;
      var k := 0;
      assert anns[k..] == anns;
      while k < |anns|
        invariant 0 <= k <= |anns|
        invariant index + |ArgItems(anns[k..])| <= args.Length
        invariant Fold(View(), anns[k..], index) == Fold(before, anns, 0)
      {
        assert anns[k..][1..] == anns[k + 1..];
        index := Apply(anns[k], index);
        k := k + 1;
      }
      assert anns[k..] == [];
      FoldFromStart(before, anns);
    }
  }
}
