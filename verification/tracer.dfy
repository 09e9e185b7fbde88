/** The `Follow` tracer: its state, the profiling hook `trace_dispatch` that turns
    interpreter events into call records, and the memoised owner lookup of
    `file_module_function_of`. */
module Tracer {
  import opened Wrappers
  import opened Introspection
  import opened Nesting

  /** A code object: its identity in the object graph and the fields the tracer reads. */
  datatype Code = Code(obj: Obj, filename: string, firstLineNo: nat, name: string)

  /** The frame the hook is called with: its identity and its code object. */
  datatype Frame = Frame(id: FrameId, code: Code)

  /** A callable implemented in C, as passed with `c_call`. */
  datatype Callable = Callable(name: string, builtin: bool)

  /** The events `sys.setprofile` delivers. For `call` the argument is `None`,
      for the `c_*` events it is the C callable. */
  datatype Event =
    | Call
    | Return
    | CCall(callee: Callable)
    | CReturn(callee: Callable)
    | CException(callee: Callable)

  /** One entry of `timings`: `(indent, filename, lineno, func_name, frame_id, parent_id)`.
      `parent` is `None` when the frame had no caller. */
  datatype Record = Record(
    indent: nat,
    filename: string,
    lineno: nat,
    funcName: string,
    frameId: FrameId,
    parent: Option<FrameId>)

  /** A tracer session: `timings`, `frame_cache` and `_caller_cache`. */
  datatype Follow = Follow(
    timings: seq<Record>,
    frameCache: set<FrameId>,
    callerCache: map<Code, Option<string>>)

  /** `Follow()`: nothing recorded, nothing cached. */
  function NewFollow(): (s: Follow)
    ensures |s.timings| == 0 && s.frameCache == {} && s.callerCache == map[]
  {
    Follow([], {}, map[])
  }

  /** `inspect.isbuiltin(arg)`; the argument of `call` is `None`, which is not builtin. */
  predicate ArgIsBuiltin(e: Event) {
    match e
    case CCall(c) => c.builtin
    case CReturn(c) => c.builtin
    case CException(c) => c.builtin
    case _ => false
  }

  /** The three filters of `trace_dispatch`: a call event, not a builtin, not a property getter. */
  predicate Recorded(h: Heap, frame: Frame, e: Event) {
    && (e.Call? || e.CCall?)
    && !ArgIsBuiltin(e)
    && !IsProperty(h, frame.code.obj)
  }

  /** `trace_dispatch(frame, event, arg)`: `chain` is the caller chain of `frame`
      (outermost first, `frame.f_back` last) and `h` the object graph at the time. */
  function TraceDispatch(s: Follow, h: Heap, chain: seq<FrameId>, frame: Frame, e: Event): (r: Follow)
    ensures Recorded(h, frame, e) <==> |r.timings| == |s.timings| + 1
    ensures !Recorded(h, frame, e) ==> r == s
    ensures |r.timings| >= |s.timings| && r.timings[..|s.timings|] == s.timings
    ensures r.callerCache == s.callerCache
    ensures Recorded(h, frame, e) ==>
              && r.frameCache == IndentLevel(s.frameCache, chain, frame.id).cache
              && frame.id in r.frameCache
              && r.timings[|s.timings|].indent == |CachedPositions(chain, s.frameCache)|
              && r.timings[|s.timings|].frameId == frame.id
              && r.timings[|s.timings|].parent == (if |chain| == 0 then None else Some(chain[|chain| - 1]))
    ensures Recorded(h, frame, e) && e.CCall? ==>
              && r.timings[|s.timings|].filename == ""
              && r.timings[|s.timings|].lineno == 0
              && r.timings[|s.timings|].funcName == e.callee.name
    ensures Recorded(h, frame, e) && e.Call? ==>
              && r.timings[|s.timings|].filename == frame.code.filename
              && r.timings[|s.timings|].lineno == frame.code.firstLineNo
              && r.timings[|s.timings|].funcName == frame.code.name
  {
    if !(e.Call? || e.CCall?) then s
    else if ArgIsBuiltin(e) then s
    else if IsProperty(h, frame.code.obj) then s
    else
      var n := IndentLevel(s.frameCache, chain, frame.id);
      var rec :=
        if e.CCall? then Record(n.indent, "", 0, e.callee.name, frame.id, n.parent)
        else Record(n.indent, frame.code.filename, frame.code.firstLineNo, frame.code.name, frame.id, n.parent);
      assert (s.timings + [rec])[..|s.timings|] == s.timings;
      Follow(s.timings + [rec], n.cache, s.callerCache)
  }

  /** One hook invocation: the object graph, the caller chain, the frame and the event. */
  datatype Step = Step(heap: Heap, chain: seq<FrameId>, frame: Frame, event: Event)

  /** How many of the steps pass the filters. */
  function RecordedCount(steps: seq<Step>): (n: nat)
    ensures n <= |steps|
    decreases |steps|
  {
    if |steps| == 0 then 0
    else
      var last := steps[|steps| - 1];
      RecordedCount(steps[..|steps| - 1]) + (if Recorded(last.heap, last.frame, last.event) then 1 else 0)
  }

  /** The session after the hook has seen `steps` in order. */
  function Trace(s: Follow, steps: seq<Step>): Follow
    decreases |steps|
  {
    if |steps| == 0 then s
    else
      var last := steps[|steps| - 1];
      TraceDispatch(Trace(s, steps[..|steps| - 1]), last.heap, last.chain, last.frame, last.event)
  }

  /** Over a whole session records are only appended: the earlier log is a prefix of
      the later one, one record per step that passes the filters, and the owner
      cache is untouched. */
  lemma {:induction false} TraceOnlyAppends(s: Follow, steps: seq<Step>)
    ensures |Trace(s, steps).timings| == |s.timings| + RecordedCount(steps)
    ensures Trace(s, steps).timings[..|s.timings|] == s.timings
    ensures Trace(s, steps).callerCache == s.callerCache
    decreases |steps|
  {
    if |steps| > 0 {
      var prev := Trace(s, steps[..|steps| - 1]);
      TraceOnlyAppends(s, steps[..|steps| - 1]);
      var r := Trace(s, steps);
      assert r.timings[..|prev.timings|] == prev.timings;
      assert r.timings[..|s.timings|] == prev.timings[..|s.timings|];
    }
  }

  /** A property getter never produces a record, whatever the event and state. */
  lemma PropertyAccessRecordsNothing(s: Follow, h: Heap, chain: seq<FrameId>, frame: Frame, e: Event)
    requires IsProperty(h, frame.code.obj)
    ensures TraceDispatch(s, h, chain, frame, e) == s
  {
  }

  /** `"%s.%s" % (clsname, funcname)` when an owner is known, the bare name otherwise. */
  function QualifiedName(owner: Option<string>, name: string): (r: string)
    ensures owner.None? ==> r == name
    ensures owner.Some? ==> |r| == |owner.value| + 1 + |name| && r[..|owner.value|] == owner.value
                            && r[|owner.value|] == '.' && r[|owner.value| + 1..] == name
  {
    match owner
    case None => name
    case Some(cls) => cls + "." + name
  }

  /** The filename and (possibly class-qualified) function name of a code object. */
  datatype Located = Located(filename: string, funcName: string)

  /** `file_module_function_of` without the module name: the first lookup of a
      code object runs the owner search and caches its outcome, success or
      `None`; later lookups answer from the cache. */
  function FileFunctionOf(s: Follow, h: Heap, code: Code): (r: (Follow, Located))
    ensures r.0.timings == s.timings && r.0.frameCache == s.frameCache
    ensures code in r.0.callerCache
    ensures code in s.callerCache ==> r.0 == s
    ensures code !in s.callerCache ==> r.0.callerCache == s.callerCache[code := OwnerOf(h, code.obj)]
    ensures r.1.filename == code.filename
    ensures r.1.funcName == QualifiedName(r.0.callerCache[code], code.name)
  {
    if code in s.callerCache then
      (s, Located(code.filename, QualifiedName(s.callerCache[code], code.name)))
    else
      var owner := OwnerOf(h, code.obj);
      (s.(callerCache := s.callerCache[code := owner]), Located(code.filename, QualifiedName(owner, code.name)))
  }

  /** On the first lookup of a code object in a session, the name is qualified
      exactly when all three referrer steps found a single match. */
  lemma {:induction false} QualifiedOnlyWithOwner(s: Follow, h: Heap, code: Code)
    requires code !in s.callerCache
    ensures var r := FileFunctionOf(s, h, code);
            && (forall c :: OwnedBy(h, code.obj, c) ==> r.1.funcName == h.nameOf(c) + "." + code.name)
            && ((!exists c :: OwnedBy(h, code.obj, c)) ==> r.1.funcName == code.name)
  {
    OwnerOfCharacterization(h, code.obj);
  }

  /** The first lookup fixes the answer: a second lookup, even against a changed
      object graph, returns the same name and leaves the session as it was. */
  lemma {:induction false} LookupIsMemoised(s: Follow, h1: Heap, h2: Heap, code: Code)
    ensures var first := FileFunctionOf(s, h1, code);
            var second := FileFunctionOf(first.0, h2, code);
            second.0 == first.0 && second.1 == first.1
  {
  }

  /** Errors the Python code can raise. */
  datatype PyError = NameError(name: string)

  /** `file_module_function_of` as written: `modname` at line 109 is not defined
      anywhere, so any code object with a non-empty filename raises `NameError`
      before anything is cached. */
  function FileModuleFunctionOfAsWritten(s: Follow, h: Heap, code: Code): (r: Result<(Follow, Located), PyError>)
    ensures r.Failure? <==> code.filename != ""
    ensures r.Failure? ==> r.error == NameError("modname")
    ensures r.Success? ==> r.value == FileFunctionOf(s, h, code)
  {
    if code.filename != "" then Failure(NameError("modname"))
    else Success(FileFunctionOf(s, h, code))
  }

  /** The as-written lookup fails for the method `bob` defined in an ordinary source file. */
  lemma ModnameRaisesForSourceFiles(h: Heap)
    ensures FileModuleFunctionOfAsWritten(NewFollow(), h, Code(1, "test_follow.py", 8, "bob")).Failure?
    ensures FileFunctionOf(NewFollow(), h, Code(1, "test_follow.py", 8, "bob")).1.filename == "test_follow.py"
  {
  }
}
