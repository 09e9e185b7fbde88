/** The object-graph questions the tracer asks of the interpreter, reduced to an
    oracle: who refers to an object (`gc.get_referrers`) and what kind of object
    it is (`inspect.isfunction`, `isinstance(_, property)`, `isinstance(_, dict)`,
    `hasattr(_, "__bases__")`, `__name__`). On top of it: the "exactly one
    referrer" step, the property-getter test and the owning-class search. */
module Introspection {
  import opened Wrappers

  /** Identity of a live interpreter object. */
  type Obj = int

  /** A snapshot of the object graph as the tracer sees it. */
  datatype Heap = Heap(
    referrers: Obj -> seq<Obj>,
    isFunction: Obj -> bool,
    isProperty: Obj -> bool,
    isDict: Obj -> bool,
    hasBases: Obj -> bool,
    nameOf: Obj -> string)

  /** List comprehension `[x for x in xs if p(x)]`. */
  function Filter(xs: seq<Obj>, p: Obj -> bool): (r: seq<Obj>)
    ensures |r| <= |xs|
    ensures forall y :: y in r ==> y in xs && p(y)
    ensures |r| == 0 <==> forall i :: 0 <= i < |xs| ==> !p(xs[i])
    decreases |xs|
  {
    if |xs| == 0 then []
    else (if p(xs[0]) then [xs[0]] else []) + Filter(xs[1..], p)
  }

  /** `xs[i]` is the one and only element of `xs` (counting repeats) that satisfies `p`. */
  ghost predicate UniqueMatchAt(xs: seq<Obj>, p: Obj -> bool, i: int) {
    && 0 <= i < |xs|
    && p(xs[i])
    && forall j :: 0 <= j < |xs| && p(xs[j]) ==> j == i
  }

  /** A comprehension has exactly one element precisely when exactly one position
      of the input satisfies the test, and that element is the one at that position. */
  lemma {:induction false} FilterSingleton(xs: seq<Obj>, p: Obj -> bool)
    ensures |Filter(xs, p)| == 1 <==> exists i :: UniqueMatchAt(xs, p, i)
    ensures forall i :: UniqueMatchAt(xs, p, i) ==> Filter(xs, p) == [xs[i]]
    decreases |xs|
  {
    if |xs| == 0 {
      return;
    }
    var tail := xs[1..];
    FilterSingleton(tail, p);
    if p(xs[0]) {
      if |Filter(xs, p)| == 1 {
        assert |Filter(tail, p)| == 0;
        assert UniqueMatchAt(xs, p, 0);
      }
      forall i | UniqueMatchAt(xs, p, i) ensures Filter(xs, p) == [xs[i]] {
        assert i == 0;
        forall k | 0 <= k < |tail| ensures !p(tail[k]) {
          assert xs[k + 1] == tail[k];
        }
      }
    } else {
      assert Filter(xs, p) == Filter(tail, p);
      if |Filter(xs, p)| == 1 {
        var k :| UniqueMatchAt(tail, p, k);
        assert UniqueMatchAt(xs, p, k + 1) by {
          forall j | 0 <= j < |xs| && p(xs[j]) ensures j == k + 1 {
            assert j > 0;
            assert tail[j - 1] == xs[j];
          }
        }
      }
      forall i | UniqueMatchAt(xs, p, i) ensures Filter(xs, p) == [xs[i]] {
        assert i > 0;
        assert UniqueMatchAt(tail, p, i - 1) by {
          forall j | 0 <= j < |tail| && p(tail[j]) ensures j == i - 1 {
            assert xs[j + 1] == tail[j];
          }
        }
      }
    }
  }

  /** The source's "refuse to guess" step: the only referrer of `x` passing the
      kind test, or `None` when there are zero or several. */
  function SoleReferrer(h: Heap, x: Obj, p: Obj -> bool): (r: Option<Obj>)
    ensures r.Some? <==> |Filter(h.referrers(x), p)| == 1
    ensures r.Some? ==> r.value in h.referrers(x) && p(r.value)
  {
    var ms := Filter(h.referrers(x), p);
    if |ms| == 1 then Some(ms[0]) else None
  }

  /** `SoleReferrer` finds `y` exactly when `y` sits at the one position of the
      referrer list that passes the test. */
  lemma SoleReferrerIsUniqueMatch(h: Heap, x: Obj, p: Obj -> bool, y: Obj)
    ensures SoleReferrer(h, x, p) == Some(y)
      <==> exists i :: UniqueMatchAt(h.referrers(x), p, i) && h.referrers(x)[i] == y
  {
    FilterSingleton(h.referrers(x), p);
  }

  /** `is_property`: exactly one function refers to the code object and exactly
      one property object refers to that function. */
  function IsProperty(h: Heap, code: Obj): (b: bool)
    ensures b ==> |Filter(h.referrers(code), h.isFunction)| == 1
    ensures b <==> exists f :: SoleReferrer(h, code, h.isFunction) == Some(f)
                              && SoleReferrer(h, f, h.isProperty).Some?
  {
    match SoleReferrer(h, code, h.isFunction)
    case None => false
    case Some(f) => |Filter(h.referrers(f), h.isProperty)| == 1
  }

  /** A code object is a property getter exactly when one position of its referrer
      list is a function and, among that function's referrers, one position is a property. */
  lemma IsPropertyCharacterization(h: Heap, code: Obj)
    ensures IsProperty(h, code) <==>
              exists i :: UniqueMatchAt(h.referrers(code), h.isFunction, i)
                          && exists j :: UniqueMatchAt(h.referrers(h.referrers(code)[i]), h.isProperty, j)
  {
    FilterSingleton(h.referrers(code), h.isFunction);
    if IsProperty(h, code) {
      var f := SoleReferrer(h, code, h.isFunction).value;
      SoleReferrerIsUniqueMatch(h, code, h.isFunction, f);
      var i :| UniqueMatchAt(h.referrers(code), h.isFunction, i) && h.referrers(code)[i] == f;
      FilterSingleton(h.referrers(f), h.isProperty);
    }
    if exists i :: UniqueMatchAt(h.referrers(code), h.isFunction, i)
                   && exists j :: UniqueMatchAt(h.referrers(h.referrers(code)[i]), h.isProperty, j) {
      var i :| UniqueMatchAt(h.referrers(code), h.isFunction, i)
               && exists j :: UniqueMatchAt(h.referrers(h.referrers(code)[i]), h.isProperty, j);
      var f := h.referrers(code)[i];
      SoleReferrerIsUniqueMatch(h, code, h.isFunction, f);
      FilterSingleton(h.referrers(f), h.isProperty);
    }
  }

  /** The class-name part of `file_module_function_of`: functions, then dicts,
      then objects with `__bases__`, each step demanding exactly one match. */
  function OwnerOf(h: Heap, code: Obj): (r: Option<string>)
    ensures r.Some? ==> exists c :: h.hasBases(c) && h.nameOf(c) == r.value
    ensures |Filter(h.referrers(code), h.isFunction)| != 1 ==> r.None?
  {
    match SoleReferrer(h, code, h.isFunction)
    case None => None
    case Some(f) =>
      match SoleReferrer(h, f, h.isDict)
      case None => None
      case Some(d) =>
        match SoleReferrer(h, d, h.hasBases)
        case None => None
        case Some(c) => Some(h.nameOf(c))
  }

  /** Class `c` owns the code object: it is the only class referring to the only
      dict referring to the only function referring to the code. */
  ghost predicate OwnedBy(h: Heap, code: Obj, c: Obj) {
    exists f, d ::
      && (exists i :: UniqueMatchAt(h.referrers(code), h.isFunction, i) && h.referrers(code)[i] == f)
      && (exists j :: UniqueMatchAt(h.referrers(f), h.isDict, j) && h.referrers(f)[j] == d)
      && (exists k :: UniqueMatchAt(h.referrers(d), h.hasBases, k) && h.referrers(d)[k] == c)
  }

  /** The owner search succeeds exactly when some class owns the code in the sense
      of `OwnedBy`, and then it names that class; otherwise it gives no owner. */
  lemma OwnerOfCharacterization(h: Heap, code: Obj)
    ensures forall c :: OwnedBy(h, code, c) ==> OwnerOf(h, code) == Some(h.nameOf(c))
    ensures OwnerOf(h, code).Some? ==> exists c :: OwnedBy(h, code, c) && OwnerOf(h, code) == Some(h.nameOf(c))
  {
    forall c | OwnedBy(h, code, c) ensures OwnerOf(h, code) == Some(h.nameOf(c)) {
      var f, d :| && (exists i :: UniqueMatchAt(h.referrers(code), h.isFunction, i) && h.referrers(code)[i] == f)
                  && (exists j :: UniqueMatchAt(h.referrers(f), h.isDict, j) && h.referrers(f)[j] == d)
                  && (exists k :: UniqueMatchAt(h.referrers(d), h.hasBases, k) && h.referrers(d)[k] == c);
      SoleReferrerIsUniqueMatch(h, code, h.isFunction, f);
      SoleReferrerIsUniqueMatch(h, f, h.isDict, d);
      SoleReferrerIsUniqueMatch(h, d, h.hasBases, c);
    }
    if OwnerOf(h, code).Some? {
      var f := SoleReferrer(h, code, h.isFunction).value;
      var d := SoleReferrer(h, f, h.isDict).value;
      var c := SoleReferrer(h, d, h.hasBases).value;
      SoleReferrerIsUniqueMatch(h, code, h.isFunction, f);
      SoleReferrerIsUniqueMatch(h, f, h.isDict, d);
      SoleReferrerIsUniqueMatch(h, d, h.hasBases, c);
      assert OwnedBy(h, code, c);
    }
  }

  /** Ambiguity at any of the three steps (zero or several matches) means no owner. */
  lemma AmbiguityGivesNoOwner(h: Heap, code: Obj)
    ensures |Filter(h.referrers(code), h.isFunction)| != 1 ==> OwnerOf(h, code).None?
    ensures forall f ::
              (SoleReferrer(h, code, h.isFunction) == Some(f) && |Filter(h.referrers(f), h.isDict)| != 1)
              ==> OwnerOf(h, code).None?
    ensures forall f, d ::
              (&& SoleReferrer(h, code, h.isFunction) == Some(f)
               && SoleReferrer(h, f, h.isDict) == Some(d)
               && |Filter(h.referrers(d), h.hasBases)| != 1)
              ==> OwnerOf(h, code).None?
  {
  }
}
