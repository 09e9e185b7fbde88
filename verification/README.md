# Follow: a call-path tracer, modelled in Dafny

`edamame/tools/follow.py` defines `Follow`, a profiling hook. While it is installed,
every function call the interpreter makes passes through `trace_dispatch`, which
keeps the interesting ones as `(indent, filename, lineno, func_name, frame_id,
parent_id)` tuples. `pprint` later prints these tuples as an indented call tree.
This project models that tracer with immutable values and pure functions:

- **Event filter** (`Tracer.TraceDispatch`). Only `call` and `c_call` events are
  considered. A builtin argument drops the event, and so does a code object that is
  a property getter (`Introspection.IsProperty`). Every other event appends one
  record to `timings`. For `c_call` the interpreter passes the calling frame. Its
  code is what the property test inspects, and its id is what the record stores.
- **Nesting depth** (`Nesting.IndentLevel`, `Nesting.WalkCallerChain`). The indent
  is the number of frames on the caller chain whose id is in `frame_cache`. When
  that number is 0 the cache restarts as `{id(frame)}`; otherwise the frame is
  added to it. The caller chain is a sequence of frame ids, outermost first, ending
  with `frame.f_back`.
- **Renderer** (`Render.Pprint`). Filenames become basenames. Native calls,
  `<lambda>`, `<genexpr>` and `__`-prefixed names are masked, and so are calls
  deeper than a truthy `depth`. Each remaining record becomes
  `"    " * indent + name + " " + basename + ":" + lineno`.
- **Owning class** (`Introspection.OwnerOf`, `Tracer.FileFunctionOf`). The search
  goes from the code object to its function, to the class namespace dict, to the
  class. Each of the three steps must find exactly one referrer. The outcome, a
  class name or `None`, is cached per code object.

The interpreter's object graph is an oracle `Heap`. It has `referrers`
(`gc.get_referrers`) and the kind tests the source uses (`inspect.isfunction`,
`isinstance(_, property)`, `isinstance(_, dict)`, `hasattr(_, "__bases__")`), plus
`__name__`. Frames are a frame id plus a code object. The live stack is given
explicitly as the caller chain.

Modules: `Wrappers` (Option, Result), `Text` (basename, decimal digits, scanners),
`Introspection`, `Nesting`, `Tracer`, `Render`, `Scenarios`.

## Model

| member | source | states |
|---|---|---|
| Text.Basename | edamame/tools/follow.py:95 | the result is the suffix of the path after its last `/`: it is a suffix, holds no `/`, and is either the whole path or preceded by `/` |
| Text.BasenameOfJoin | edamame/tools/follow.py:95 | the basename of `dir + "/" + name` is `name` for any slash-free name |
| Text.BasenameIdempotent | edamame/tools/follow.py:95 | taking the basename twice gives the same as taking it once |
| Text.NatToString | edamame/tools/follow.py:162-163 | a line number prints as a non-empty run of decimal digits with no leading zero |
| Text.NatToStringRoundTrip | edamame/tools/follow.py:162-163 | reading the printed digits of a line number gives the number back |
| Introspection.FilterSingleton | edamame/tools/follow.py:17-19 | a comprehension has length 1 exactly when exactly one position (counting repeats) passes the test, and then it holds that element |
| Introspection.SoleReferrer | edamame/tools/follow.py:122-127 | a result exists exactly when one referrer passes the kind test, and it is such a referrer |
| Introspection.SoleReferrerIsUniqueMatch | edamame/tools/follow.py:122-127 | the sole referrer is `y` exactly when `y` sits at the only position of the referrer list that passes the test |
| Introspection.IsProperty | edamame/tools/follow.py:9-25 | a code object is a property getter exactly when one function refers to it and one property refers to that function |
| Introspection.IsPropertyCharacterization | edamame/tools/follow.py:17-25 | a code object is a property getter exactly when one position of its referrer list is a function and exactly one position of that function's referrer list is a property |
| Introspection.OwnerOf | edamame/tools/follow.py:122-135 | a found owner is the `__name__` of an object with `__bases__`; with zero or several functions referring to the code there is no owner |
| Introspection.OwnerOfCharacterization | edamame/tools/follow.py:122-135 | the search names class `c` exactly when `c` is the only class referring to the only dict referring to the only function referring to the code |
| Introspection.AmbiguityGivesNoOwner | edamame/tools/follow.py:127-133 | a count other than 1 at the function step, the dict step or the class step gives no owner |
| Nesting.CountCached | edamame/tools/follow.py:80-83 | the count is at most the chain length; it is 0 exactly when no frame on the chain is cached, and the full length exactly when every frame is |
| Nesting.CountIsCachedPositions | edamame/tools/follow.py:77-83 | the count equals the number of chain positions whose frame id is cached |
| Nesting.IndentLevel | edamame/tools/follow.py:76-89 | the indent is the number of cached frames on the caller chain (so between 0 and the chain length); the parent is the immediate caller or none; the cache becomes `{frame}` at indent 0 and `cache + {frame}` otherwise, so it always holds the frame |
| Nesting.WalkCallerChain | edamame/tools/follow.py:76-89 | the `while f:` walk from `f_back` outward counts the cached frames and gives the same indent, parent and cache as `IndentLevel` |
| Tracer.NewFollow | edamame/tools/follow.py:45-48 | a new session has no records and empty frame and owner caches |
| Tracer.TraceDispatch | edamame/tools/follow.py:50-74 | exactly one record is appended iff the event is `call`/`c_call`, its argument is not builtin and the code is not a property, and otherwise the session is unchanged; old records are kept; a `c_call` record has filename `""`, line 0 and the callee's name; a `call` record takes filename, first line and name from the code; both carry the computed indent, the frame id and the immediate caller |
| Tracer.TraceOnlyAppends | edamame/tools/follow.py:50-74 | over any sequence of hook calls the earlier log is a prefix of the later one, there is one new record per event that passes the filter, and the owner cache is untouched |
| Tracer.PropertyAccessRecordsNothing | edamame/tools/follow.py:61-63 | a property getter's event leaves the session unchanged whatever the event |
| Tracer.QualifiedName | edamame/tools/follow.py:141-142 | with an owner the name is `owner + "." + name`, without one it is the bare name |
| Tracer.FileFunctionOf | edamame/tools/follow.py:113-144 | the first lookup caches the owner outcome, success or `None`; a cached code object leaves the session unchanged; the name is qualified by the cached outcome; records and frame cache are untouched |
| Tracer.QualifiedOnlyWithOwner | edamame/tools/follow.py:115-142 | on the first lookup of that code object in any session, the name gets the `Cls.` prefix exactly when some class owns the code through three sole-referrer steps, and stays unqualified otherwise |
| Tracer.LookupIsMemoised | edamame/tools/follow.py:115-119 | a second lookup returns the same name and session as the first, even against a different object graph |
| Tracer.FileModuleFunctionOfAsWritten | edamame/tools/follow.py:105-111 | as written the lookup raises `NameError` exactly when the filename is non-empty, and then nothing is cached |
| Tracer.ModnameRaisesForSourceFiles | edamame/tools/follow.py:108-109 | the method `bob` of an ordinary source file makes the as-written lookup fail |
| Render.ToFrame | edamame/tools/follow.py:91-96 | one row per record, in order, with only the filename replaced by its basename |
| Render.KeptIndices | edamame/tools/follow.py:148-168 | the kept positions are strictly increasing, as many as the printed lines, and contain exactly the unmasked rows |
| Render.KeptLinesAtKeptIndices | edamame/tools/follow.py:156-168 | the k-th printed line formats the row at the k-th kept position |
| Render.Pprint | edamame/tools/follow.py:146-171 | never more lines than records; no records print no lines |
| Render.PprintIsOrderedSubsequence | edamame/tools/follow.py:146-168 | the output is the order-preserving subsequence of unmasked records, each formatted as one line |
| Render.KeptLinesAppend | edamame/tools/follow.py:156-168 | rendering rows `a + b` prints the lines of `a` followed by the lines of `b` |
| Render.PprintAppend | edamame/tools/follow.py:146-168 | rendering a log that grew by appending prints the old output followed by the new records' lines |
| Render.NativeCallsNeverRendered | edamame/tools/follow.py:148 | a record with an empty filename (every `c_call` record) prints nothing |
| Render.ZeroDepthIsUnlimited | edamame/tools/follow.py:151-152 | `depth=0` is falsy and prints the same as no depth limit |
| Render.DepthLimitBoundsIndent | edamame/tools/follow.py:151-152 | with a non-zero depth every printed record has indent at most that depth |
| Render.FormatLineRoundTrip | edamame/tools/follow.py:154-164 | a printed line reads back to the record's indent (leading blanks / 4), name, basename and line number, so the indentation reconstructs the nesting |
| Scenarios.NestedCallsIndentByDepth | edamame/tools/follow.py:76-89 | `n` nested calls entered from untraced code get indents 0, 1, ..., n-1, in order, with their own frame ids, and the cache then holds exactly their frames |
| Scenarios.SiblingCallStartsAtTopLevel | edamame/tools/follow.py:84-86 | after nested calls return, the next call from the outer chain gets indent 0 and resets the cache to its own frame |
| Scenarios.RecursiveFactorial | edamame/tools/follow.py:76-89 | `fact(3)` calling `fact(2)` calling `fact(1)` gives indents 0, 1, 2 |
| Scenarios.SequentialTopLevelCalls | edamame/tools/follow.py:76-89 | `f()` then `g()` from the same untraced frame both get indent 0 |
| Scenarios.ParentMethodResolvesOwner | edamame/tools/follow.py:113-142 | with the corrected lookup `Tracer.FileFunctionOf` (no module name), `bob`, defined in `Parent` and called as `tc.bob()` in `test_follow.py`, resolves to `Parent.bob` |
| Scenarios.PropertyAccessIsSkipped | edamame/tools/follow.py:9-25 | reading a property produces no record, and calling an ordinary method produces one |

## Left out

- Installing and removing the hook (`sys.setprofile` in `__enter__`/`__exit__`, follow.py:98-103) is process-global runtime plumbing. The model is the state transition that each hook call performs.
- `gc.get_referrers` and the `inspect`/`isinstance`/`hasattr` predicates are the `Heap` oracle. The CPython object graph is not modelled.
- The pandas DataFrame and `print` are left out. `to_frame` yields a sequence of records, and `pprint` returns the lines it would print.
- Frame objects are a frame id plus a code object, with the caller chain passed explicitly. `id(first_parent)` for a frame with no caller is `id(None)` in the source and `None` in the model.
- Frame ids are assumed unique. Reuse of an `id()` after a frame is reclaimed is not modelled.
- The module-name output of `file_module_function_of` is left out, because `modname` is undefined (see Findings). `file_module_function_of` is never called by `trace_dispatch` or `pprint`, so printed lines carry no class name.
- The owner cache is keyed by the code object's identity. CPython code objects compare structurally, so two distinct but equal code objects would share one entry in the source.
- For `call` the interpreter passes `None` as the argument, and for `c_call` it passes the C callable. A `c_call` without a callable (which would raise on `arg.__name__`) cannot occur and is not modelled. Exceptions raised inside the hook are not modelled.
- `Callable.builtin` is a free flag, which admits more cases than can occur. This rests on CPython's interpreter, not on any file of this repository: CPython raises `c_call` only for C callables (`builtin_function_or_method`), and for those `inspect.isbuiltin(arg)` at follow.py:55 is always true. So under CPython the `c_call` record branch at follow.py:67-69 never runs in practice. The model still covers that branch, and nothing proved depends on which case occurs.
- `depth` is `Option<int>`: `None` or `Some(0)` means no limit, which is how Python's truthiness treats them. Other falsy values are not modelled.
- Trace diffing: follow.py contains no diff code, so there is nothing to model.
- `edamame/tools/profiler.py` is a thin wrapper over the external `line_profiler` and is not part of this model.
- `edamame/tools/test_follow.py` is an ad-hoc script, not a test suite, and it refers to a `follow.get_parent` that does not exist. Its `Parent.bob` example is restated as `Scenarios.ParentMethodResolvesOwner`. That scenario uses the corrected lookup `Tracer.FileFunctionOf`: as written, the lookup raises `NameError` for `bob` (see Findings).
- Three facts about the code that a reader might not expect:
  - `if depth:` (follow.py:151) treats a depth of 0 as no limit, so `pprint(depth=0)` prints every depth (`Render.ZeroDepthIsUnlimited`).
  - Printed lines carry no owner name and no angle brackets: the format is `name basename:lineno` (follow.py:154).
  - The dict step of the owner search (follow.py:128-130) has no bound-method shortcut: it always requires exactly one referring dict.

## Findings

| source | as written | input that shows it | evidently intended | confidence | as-written member | corrected member |
|---|---|---|---|---|---|---|
| edamame/tools/follow.py:108-109 | calls `modname(filename)`, which is neither defined nor imported in the module | any code object with a non-empty `co_filename`, e.g. `bob` in `test_follow.py` | derive a module name (as `trace.modname` does) and continue to the owner lookup | high; not executed | Tracer.FileModuleFunctionOfAsWritten (counterexample: Tracer.ModnameRaisesForSourceFiles) | Tracer.FileFunctionOf (proved: Tracer.QualifiedOnlyWithOwner, Tracer.LookupIsMemoised) |
