# nanobind function-record annotations, modelled in Dafny

This project models the annotation-folding core of nanobind's function-binding layer
(`include/nanobind/nb_attr.h`). When a C++ function is bound, the user passes a list of
annotations: `nb::name`, `nb::scope`, a docstring, `nb::is_method`, an `rv_policy`, and
`nb::arg` / `nb::arg_v` for each parameter. One `func_extra_apply` overload per annotation type
writes the annotation into a `func_data<Size>` record. A shared `size_t &index` cursor picks the
next argument slot. The fold runs once, left to right, before the record is handed to the
runtime.

Modules:

- `Handles` (handles.dfy): `const char *` as `CStr` (null or a text) and `PyObject *` as
  `PyObj` (null or an address).
- `Nb` (annotations.dfy): the `arg` builder as a class, since `noconvert` and `none` change it in
  place and return it. `ArgSpec` is the value of its fields. `ArgV` is `arg_v`, and `LiteralA`
  is the `_a` literal.
- `FuncFlags` (func_flags.dfy): the `uint16_t` flag word as `bv16` and the ten `func_flags`
  enumerators. It has the `|=` and masked-assign updates, their bit-level laws, and the policy
  mask finding below.
- `Detail` (func_data.dfy): `arg_data` and the record as a value (`Record`). It has the
  closed annotation set, one `Step` per `func_extra_apply` call, and `Fold` for a whole list.
  The class `FuncData` holds the record in place: an `array<ArgData>` of length `Size`, an
  `Apply` method for one overload call, and an `ApplyAll` loop for the list. Each method is
  proved against `Step` or `Fold`.
- `FoldProperties` (fold_properties.dfy): lemmas about one step and about the fold. They cover
  what each kind touches, last-wins, commutation of two steps and order independence of a
  whole fold, cursor and slot order, the flag/field correspondence, the policy bits, the bits
  no annotation owns, and two worked folds.

Three points where the code does less than one might expect; the model follows the code:

- An `arg` annotation copies the builder's `convert_` and `none_` into the slot. It does not
  reset them to true/false (lines 131-132 and 139-140).
- `arg_v` stores the raw pointer `a.value.ptr()`. No reference is taken (line 138).
- The policy update clears only bits 0 and 1, although three bits are reserved (see Findings).

## Model

| member | source | states |
|---|---|---|
| `Nb.Arg.constructor` | include/nanobind/nb_attr.h:15 | a fresh `arg(name)` has the given name, `convert_` true and `none_` false |
| `Nb.Arg.NoConvert` | include/nanobind/nb_attr.h:17 | `noconvert(v)` sets `convert_` to `!v`, changes no other field and returns the same object |
| `Nb.Arg.None` | include/nanobind/nb_attr.h:18 | `none(v)` sets `none_` to `v`, changes no other field and returns the same object |
| `Nb.MakeArgV` | include/nanobind/nb_attr.h:25-28 | an `arg_v` holds a copy of the builder's three fields as they are now, plus the default value |
| `Nb.LiteralA` | include/nanobind/nb_attr.h:33 | `"x"_a` is a fresh builder named `x` with the constructor's defaults |
| `FuncFlags.Position` | include/nanobind/nb_attr.h:38-61 | every flag sits in one of bits 4..13 |
| `FuncFlags.Mask` | include/nanobind/nb_attr.h:38-61 | each enumerator is a single bit, set at its position and clear of bits 0..3 |
| `FuncFlags.MasksDisjoint` | include/nanobind/nb_attr.h:42-60 | two enumerators overlap, or share a position, only when they are the same flag |
| `FuncFlags.SetFlag` | include/nanobind/nb_attr.h:104 | the OR-assign of `f` sets the flag's bit and keeps every bit outside its mask |
| `FuncFlags.SetFlagBit` | include/nanobind/nb_attr.h:101-121 | after OR-ing in `f`, a bit is set exactly when it is `f`'s bit or was already set |
| `FuncFlags.SetFlagsCommute` | include/nanobind/nb_attr.h:101-121 | setting two flags gives the same word in either order |
| `FuncFlags.SetFlagPolicyCommute` | include/nanobind/nb_attr.h:119-125 | setting a flag and assigning a policy give the same word in either order |
| `FuncFlags.PolicyAssign` | include/nanobind/nb_attr.h:124 | as written, bits 0-1 become the policy's and the higher bits become old OR policy |
| `FuncFlags.PolicyAssignBit` | include/nanobind/nb_attr.h:124 | the same, bit by bit: bits 0-1 from the policy, bits 2-15 old OR policy |
| `FuncFlags.PolicyAssignInRange` | include/nanobind/nb_attr.h:123-125 | for a code below 8, bits 3..15 are kept and bit 2 becomes old OR policy |
| `FuncFlags.PolicyOverwriteIff` | include/nanobind/nb_attr.h:123-125 | the second of two policies erases the first exactly when the first leaves no bit 2 behind that the second and the old word lack |
| `FuncFlags.PolicyLeak` | include/nanobind/nb_attr.h:124 | policy 4 then policy 3 on a clear word leaves 7 in the three policy bits, which differs from applying 3 alone |
| `FuncFlags.PolicyAssignIntended` | include/nanobind/nb_attr.h:39 | with the three-bit mask, the policy bits equal the code and bits 3..15 are kept |
| `FuncFlags.IntendedPolicyLastWins` | include/nanobind/nb_attr.h:39 | with the three-bit mask, the last of two policies always wins |
| `Detail.Filled` | include/nanobind/nb_attr.h:127-141 | a filled slot takes name, `convert` and `none` from the annotation and the value from `arg_v` (null for `arg`), and keeps its `name_py` |
| `Detail.Step` | include/nanobind/nb_attr.h:101-141 | one call keeps the slot count and `nargs`, advances the cursor by one exactly for `arg`/`arg_v`, and leaves the slots alone otherwise |
| `Detail.Fold` | include/nanobind/nb_attr.h:101-141 | folding a list keeps the slot count and `nargs` |
| `Detail.FoldCursor` | include/nanobind/nb_attr.h:127-141 | the final cursor is the start plus the number of `arg`/`arg_v` annotations |
| `Detail.FoldArgs` | include/nanobind/nb_attr.h:127-141 | slot `start + m` holds the m-th argument annotation whatever is interleaved, and no other slot changes |
| `Detail.FuncData.constructor` | include/nanobind/nb_attr.h:71-99 | a fresh record holding exactly the header fields and slot contents its creator supplies; `func_data` forces none of them to null |
| `Detail.FuncData.Apply` | include/nanobind/nb_attr.h:101-141 | updating the record in place gives exactly `Step`'s record and cursor |
| `Detail.FuncData.ApplyAll` | include/nanobind/nb_attr.h:101-141 | applying a list in place from cursor 0 gives `Fold`'s record. The cursor ends at the argument count, and slot k holds the k-th argument annotation |
| `FoldProperties.StepMarker` | include/nanobind/nb_attr.h:101-121 | `name`, `scope`, doc and `is_method` set exactly their own bit and store their own field. They change no other field, slot or cursor |
| `FoldProperties.StepPolicy` | include/nanobind/nb_attr.h:123-125 | a policy changes only the flag word, bit by bit as written, and keeps bits 3..15 when below 8. The cursor stays put |
| `FoldProperties.StepArg` | include/nanobind/nb_attr.h:127-141 | `arg`/`arg_v` fill slot `index`, advance the cursor by one, and change neither the header nor any other slot |
| `FoldProperties.StepMarkerLastWins` | include/nanobind/nb_attr.h:101-121 | two markers of one kind act like the second alone, so the last value wins and `is_method` is idempotent |
| `FoldProperties.StepPolicyTwice` | include/nanobind/nb_attr.h:123-125 | the last of two policies wins exactly when the bit-2 condition of the finding holds |
| `FoldProperties.StepsCommute` | include/nanobind/nb_attr.h:101-141 | an annotation that is not an argument commutes with any annotation of another kind |
| `FoldProperties.FoldArgsIgnoreOthers` | include/nanobind/nb_attr.h:127-141 | lists with the same argument annotations in the same order give the same slots and cursor |
| `FoldProperties.FoldFlag` | include/nanobind/nb_attr.h:101-125 | after the fold a flag bit is set exactly when it was set before or some annotation supplies it |
| `FoldProperties.FoldLastWins` | include/nanobind/nb_attr.h:101-117 | name, scope and doc hold the payload of the last annotation of their kind, or their old value if there is none |
| `FoldProperties.FoldPolicyLowBits` | include/nanobind/nb_attr.h:123-125 | bits 0-1 end up as the last policy's, or unchanged when no policy is applied |
| `FoldProperties.FoldPolicyBit2` | include/nanobind/nb_attr.h:123-125 | bit 2 ends up set exactly when it was set before or any applied policy has it, so the fold never clears it |
| `FoldProperties.FoldKeepsSpareBits` | include/nanobind/nb_attr.h:38-61 | bits 3, 14 and 15, which no annotation owns, come out of the fold unchanged when every policy is below 8 |
| `FoldProperties.FoldOrderIrrelevant` | include/nanobind/nb_attr.h:101-141 | two lists with the same `arg`/`arg_v` annotations in the same order and the same other annotations, each kind at most once, fold to the same record and cursor |
| `FoldProperties.ScenarioNameAndTwoArgs` | include/nanobind/nb_attr.h:101-141 | name "add", an `arg` and an `arg_v` on two slots give the name bit and field, both slots in order, and a cursor of 2 |
| `FoldProperties.ScenarioMethodAndPolicy` | include/nanobind/nb_attr.h:119-125 | `is_method` then a policy below 8 on an empty record give the method bit and exactly the policy in bits 0..2 |

## Left out

- The `capture[3]` buffer, the `free` callback, the `impl` entry point, `descr` and `descr_types`
  (lines 73-85). They are raw memory, foreign calls and RTTI, and nothing in this file reads or
  writes them.
- Python reference counting and object ownership. Handles are opaque addresses, and the move of
  `object` into `arg_v` (line 27) is modelled as a copy of its pointer.
- `name_py` interning. The field is never assigned here, and the model proves the fold keeps it.
- `arg::operator=` (line 16). It is declared in this file but defined elsewhere.
- `rv_policy` is defined outside this file. A policy is modelled by its value `(uint16_t) pol`.
  Statements that need the eight real policies assume a code below 8.
- `FoldProperties.FoldFlag`: assumes every policy code in the list is below 8. A larger code
  would OR into flag bits 4 and up, and that case is not covered.
- `FoldProperties.FoldKeepsSpareBits`: assumes every policy code is below 8, for the same reason.
- `FoldProperties.FoldOrderIrrelevant`: assumes policies below 8 and each marker kind and the
  policy at most once. With a repeated kind the order does matter, as the last one wins
  (`FoldProperties.FoldLastWins`).
- How `nargs`, `has_args`, `has_var_args`, `has_var_kwargs`, `is_constructor`, `has_free` and
  `return_ref` are set. That happens outside this file. `FuncData.constructor` takes every
  header field and the initial slot contents as parameters, so any value they hold is
  covered, and the fold never changes those bits.
- Indeterminate contents as such. C++ leaves an aggregate's fields uninitialised until
  written; the model gives them whatever value the creator passes in, and `Detail.Blank` is only
  the starting slot of the worked folds.
- C++ overload resolution over the annotation types. It is replaced by the `Annotation` datatype
  and one `match`.
- Calling `noconvert()` or `none()` on an `arg_v` returns its `arg` base by reference. The
  model's `ArgV` is an immutable copy, so that aliasing is not captured.
- Overflow of the `size_t` cursor. The cursor is bounded by `Size`, and the model requires
  `index < Size` for argument annotations.

## Findings

| source | as written | input that shows it | evidently intended | confidence | as-written member | corrected member |
|---|---|---|---|---|---|---|
| include/nanobind/nb_attr.h:124 | the masked assign with `~0b11` clears only bits 0-1, while line 39 reserves the low 3 bits for the policy | apply policy 4, then policy 3, to a clear flag word: bits 0..2 end up 7, not 3 | `~0b111`, so the last policy always wins and bits 3..15 are kept | high that the mask differs from the reservation; medium that policies of 4 and up occur twice in practice; not executed | `FuncFlags.PolicyAssign` (exhibited by `FuncFlags.PolicyLeak`, `FuncFlags.PolicyOverwriteIff`) | `FuncFlags.PolicyAssignIntended` (proved by `FuncFlags.IntendedPolicyLastWins`) |

`Detail.Step`, `Detail.FuncData.Apply` and the fold lemmas keep the code's two-bit mask, so the
model matches the code. `FoldProperties.FoldPolicyBit2` shows what this means for a whole fold:
once any applied policy has bit 2, no later policy can clear it.
