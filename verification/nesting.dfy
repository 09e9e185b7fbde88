/** `Follow.indent_level`: the nesting depth of a call is the number of frames on
    its caller chain that the frame cache already knows. The caller chain is the
    sequence of frame ids from the outermost frame to the immediate caller
    (`frame.f_back`), innermost last; the cache is the set of ids of `frame_cache`. */
module Nesting {
  import opened Wrappers

  /** `id(frame)`: identity of a live frame. */
  type FrameId = int

  /** How many entries of `chain` the cache holds (counting each position). */
  function CountCached(chain: seq<FrameId>, cache: set<FrameId>): (n: nat)
    ensures n <= |chain|
    ensures n == 0 <==> forall i :: 0 <= i < |chain| ==> chain[i] !in cache
    ensures n == |chain| <==> forall i :: 0 <= i < |chain| ==> chain[i] in cache
    decreases |chain|
  {
    if |chain| == 0 then 0
    else
      var init := chain[..|chain| - 1];
      assert forall i :: 0 <= i < |init| ==> init[i] == chain[i];
      CountCached(init, cache) + (if chain[|chain| - 1] in cache then 1 else 0)
  }

  /** The positions of the chain whose frame id is cached. */
  ghost function CachedPositions(chain: seq<FrameId>, cache: set<FrameId>): set<nat> {
    set i: nat | i < |chain| && chain[i] in cache
  }

  /** The count is the size of the set of cached positions. */
  lemma {:induction false} CountIsCachedPositions(chain: seq<FrameId>, cache: set<FrameId>)
    ensures CountCached(chain, cache) == |CachedPositions(chain, cache)|
    decreases |chain|
  {
    if |chain| > 0 {
      var n := |chain| - 1;
      var init := chain[..n];
      CountIsCachedPositions(init, cache);
      var before := CachedPositions(init, cache);
      assert n !in before;
      if chain[n] in cache {
        assert CachedPositions(chain, cache) == before + {n};
      } else {
        assert CachedPositions(chain, cache) == before;
      }
    }
  }

  /** Counting distributes over concatenation of chains. */
  lemma {:induction false} CountCachedAppend(a: seq<FrameId>, b: seq<FrameId>, cache: set<FrameId>)
    ensures CountCached(a + b, cache) == CountCached(a, cache) + CountCached(b, cache)
    decreases |b|
  {
    if |b| > 0 {
      var n := |b| - 1;
      CountCachedAppend(a, b[..n], cache);
      assert (a + b)[..|a + b| - 1] == a + b[..n];
    } else {
      assert a + b == a;
    }
  }

  /** Counting can also proceed from the outermost end, one frame at a time. */
  lemma CountCachedCons(x: FrameId, chain: seq<FrameId>, cache: set<FrameId>)
    ensures CountCached([x] + chain, cache) == (if x in cache then 1 else 0) + CountCached(chain, cache)
  {
    CountCachedAppend([x], chain, cache);
    assert [x][..0] == [];
  }

  /** What `indent_level` returns and leaves behind. */
  datatype IndentResult = IndentResult(indent: nat, parent: Option<FrameId>, cache: set<FrameId>)

  /** `indent_level(frame)` for the frame `current` whose callers are `chain`. */
  function IndentLevel(cache: set<FrameId>, chain: seq<FrameId>, current: FrameId): (r: IndentResult)
    ensures r.indent <= |chain|
    ensures r.indent == |CachedPositions(chain, cache)|
    ensures r.indent == 0 <==> forall i :: 0 <= i < |chain| ==> chain[i] !in cache
    ensures r.parent == (if |chain| == 0 then None else Some(chain[|chain| - 1]))
    ensures r.indent == 0 ==> r.cache == {current}
    ensures r.indent > 0 ==> r.cache == cache + {current}
    ensures current in r.cache
  {
    CountIsCachedPositions(chain, cache);
    var i := CountCached(chain, cache);
    var parent := if |chain| == 0 then None else Some(chain[|chain| - 1]);
    if i == 0 then IndentResult(0, parent, {current})
    else IndentResult(i, parent, cache + {current})
  }

  /** The caller walk of `indent_level` as the source writes it: start at
      `frame.f_back`, step to `f_back` until the chain ends, count cached frames. */
  method WalkCallerChain(cache: set<FrameId>, chain: seq<FrameId>, current: FrameId)
    returns (indent: nat, parent: Option<FrameId>, cache': set<FrameId>)
    ensures indent == |CachedPositions(chain, cache)|
    ensures indent <= |chain|
    ensures parent == (if |chain| == 0 then None else Some(chain[|chain| - 1]))
    ensures cache' == (if indent == 0 then {current} else cache + {current})
    ensures IndentResult(indent, parent, cache') == IndentLevel(cache, chain, current)
  {
    indent := 0;
    var k := |chain|;
    parent := if k == 0 then None else Some(chain[k - 1]);
    while k > 0
      invariant 0 <= k <= |chain|
      invariant indent == CountCached(chain[k..], cache)
      decreases k
    {
      k := k - 1;
      CountCachedCons(chain[k], chain[k + 1..], cache);
      assert chain[k..] == [chain[k]] + chain[k + 1..];
      if chain[k] in cache {
        indent := indent + 1;
      }
    }
    assert chain[0..] == chain;
    CountIsCachedPositions(chain, cache);
    if indent == 0 {
      cache' := {current};
    } else {
      cache' := cache + {current};
    }
  }
}
