/** Values the function record stores but never interprets. */
module Handles {

  /** A `const char *`: the null pointer, or a pointer to a NUL-terminated text. */
  datatype CStr = NullStr | Text(chars: string)

  /** A `PyObject *`: the null pointer, or the address of some Python object.
      Nothing in the record dereferences it or touches its reference count. */
  datatype PyObj = NullObj | Obj(address: nat)
}
