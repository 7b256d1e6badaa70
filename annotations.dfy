/** The user-facing annotation types of the `nb` namespace: `arg`, `arg_v` and the `_a` literal.
    (`name`, `scope` and `is_method` carry at most one field each and appear directly as
    kinds of `Detail.Annotation`.) */
module Nb {
  import opened Handles

  /** The three fields of an `arg` as they are when the annotation is handed to the fold. */
  datatype ArgSpec = ArgSpec(name: CStr, convert: bool, none: bool)

  /** The argument builder `arg`: its chaining methods change the object in place and return it. */
  class Arg {
    var name: CStr
    var convert: bool
    var none: bool

    /** `arg(name = nullptr)`: conversion allowed, None refused. */
    constructor (name: CStr := NullStr)
      ensures this.name == name && convert && !none
    {
      this.name := name;
      convert := true;
      none := false;
    }

    /** `noconvert(value = true)`: sets `convert_` to `!value` and nothing else. */
    method NoConvert(value: bool := true) returns (self: Arg)
      modifies this
      ensures self == this
      ensures convert == !value
      ensures name == old(name) && none == old(none)
    {
      convert := !value;
      self := this;
    }

    /** `none(value = true)`: sets `none_` to `value` and nothing else. */
    method None(value: bool := true) returns (self: Arg)
      modifies this
      ensures self == this
      ensures none == value
      ensures name == old(name) && convert == old(convert)
    {
      none := value;
      self := this;
    }

    /** The current field values of the builder. */
    function Spec(): ArgSpec
      reads this
    {
      ArgSpec(name, convert, none)
    }
  }

  /** `arg_v`: a copy of an `arg` together with the default value's object pointer. */
  datatype ArgV = ArgV(base: ArgSpec, value: PyObj)

  /** `arg_v(base, value)`: copies the builder as it is now; later changes to `base` do not reach it. */
  function MakeArgV(base: Arg, value: PyObj): (v: ArgV)
    reads base
    ensures v.base.name == base.name && v.base.convert == base.convert && v.base.none == base.none
    ensures v.value == value
  {
    ArgV(base.Spec(), value)
  }

  /** The user literal `"x"_a`: a fresh builder named by the (non-null) literal text. */
  method LiteralA(name: string) returns (a: Arg)
    ensures fresh(a)
    ensures a.Spec() == ArgSpec(Text(name), true, false)
  {
    a := new Arg(Text(name));
  }
}
