/** Call patterns the tracer is meant to handle, stated over explicit stacks:
    nested (for example recursive) calls entered from untraced code, a return to
    the outer level, property access and owner resolution of a plain method. */
module Scenarios {
  import opened Introspection
  import opened Nesting
  import opened Tracer

  function Ids(frames: seq<Frame>): (ids: seq<FrameId>)
    ensures |ids| == |frames|
    ensures forall i :: 0 <= i < |frames| ==> ids[i] == frames[i].id
  {
    seq(|frames|, i requires 0 <= i < |frames| => frames[i].id)
  }

  /** `frames[0]` is called from the untraced chain `outer`, each later frame from
      the one before it, and none of them has returned yet. */
  function NestedCalls(s: Follow, h: Heap, outer: seq<FrameId>, frames: seq<Frame>): (r: Follow)
    ensures |s.timings| <= |r.timings| <= |s.timings| + |frames|
    ensures r.timings[..|s.timings|] == s.timings
    decreases |frames|
  {
    if |frames| == 0 then s
    else
      var n := |frames| - 1;
      var prev := NestedCalls(s, h, outer, frames[..n]);
      var r := TraceDispatch(prev, h, outer + Ids(frames[..n]), frames[n], Call);
      assert r.timings[..|s.timings|] == prev.timings[..|prev.timings|][..|s.timings|];
      r
  }

  /** The outer chain is untraced, none of its frames is one of the nested frames,
      and no nested frame runs a property getter. */
  ghost predicate NestedSetting(s: Follow, h: Heap, outer: seq<FrameId>, frames: seq<Frame>) {
    && (forall i :: 0 <= i < |outer| ==> outer[i] !in s.frameCache)
    && (forall i, j :: 0 <= i < |outer| && 0 <= j < |frames| ==> outer[i] != frames[j].id)
    && (forall j :: 0 <= j < |frames| ==> !IsProperty(h, frames[j].code.obj))
  }

  ghost function FrameIdSet(frames: seq<Frame>): set<FrameId> {
    set i | 0 <= i < |frames| :: frames[i].id
  }

  /** The cache after the nested calls: untouched when there were none, otherwise
      exactly the nested frames. */
  ghost function CacheAfter(s: Follow, frames: seq<Frame>): set<FrameId> {
    if |frames| == 0 then s.frameCache else FrameIdSet(frames)
  }

  lemma SliceOfSnoc<X>(t: seq<X>, x: X, a: nat)
    requires a <= |t|
    ensures (t + [x])[a..] == t[a..] + [x]
  {
  }

  lemma FrameIdSetSnoc(pre: seq<Frame>, f: Frame)
    ensures FrameIdSet(pre + [f]) == FrameIdSet(pre) + {f.id}
  {
    var all := pre + [f];
    forall x | x in FrameIdSet(all) ensures x in FrameIdSet(pre) + {f.id} {
      var i :| 0 <= i < |all| && all[i].id == x;
      if i < |pre| {
        assert pre[i].id == x;
      }
    }
    forall x | x in FrameIdSet(pre) ensures x in FrameIdSet(all) {
      var i :| 0 <= i < |pre| && pre[i].id == x;
      assert all[i].id == x;
    }
    assert all[|pre|].id == f.id;
  }

  /** The next nested call sees every earlier nested frame cached and no outer one. */
  lemma NextCallIndent(s: Follow, h: Heap, outer: seq<FrameId>, pre: seq<Frame>, f: Frame)
    requires NestedSetting(s, h, outer, pre + [f])
    ensures CountCached(outer + Ids(pre), CacheAfter(s, pre)) == |pre|
  {
    var cache := CacheAfter(s, pre);
    CountCachedAppend(outer, Ids(pre), cache);
    forall i | 0 <= i < |outer| ensures outer[i] !in cache {
      if |pre| > 0 {
        forall j | 0 <= j < |pre| ensures outer[i] != pre[j].id {
          assert (pre + [f])[j] == pre[j];
        }
      }
    }
    assert CountCached(outer, cache) == 0;
    if |pre| > 0 {
      assert forall j :: 0 <= j < |pre| ==> Ids(pre)[j] in cache;
    }
  }

  /** One more nested call: it is recorded at the depth of the calls before it
      and joins them in the cache. */
  lemma NestedStep(s: Follow, h: Heap, outer: seq<FrameId>, pre: seq<Frame>, f: Frame, prev: Follow)
    requires NestedSetting(s, h, outer, pre + [f])
    requires prev.frameCache == CacheAfter(s, pre)
    ensures !IsProperty(h, f.code.obj)
    ensures var r := TraceDispatch(prev, h, outer + Ids(pre), f, Call);
            && |r.timings| == |prev.timings| + 1
            && r.timings == prev.timings + [r.timings[|prev.timings|]]
            && r.timings[|prev.timings|].indent == |pre|
            && r.timings[|prev.timings|].frameId == f.id
            && r.frameCache == CacheAfter(s, pre + [f])
  {
    assert (pre + [f])[|pre|] == f;
    NextCallIndent(s, h, outer, pre, f);
    CountIsCachedPositions(outer + Ids(pre), prev.frameCache);
    if |pre| > 0 {
      FrameIdSetSnoc(pre, f);
    }
  }

  lemma NestedSettingPrefix(s: Follow, h: Heap, outer: seq<FrameId>, pre: seq<Frame>, f: Frame)
    requires NestedSetting(s, h, outer, pre + [f])
    ensures NestedSetting(s, h, outer, pre)
  {
    assert forall j :: 0 <= j < |pre| ==> (pre + [f])[j] == pre[j];
  }

  /** Appending a record at depth `|pre|` extends the depth-by-position pattern. */
  lemma ExtendDepthPattern(base: nat, prevT: seq<Record>, x: Record, pre: seq<Frame>, f: Frame)
    requires |prevT| == base + |pre|
    requires forall k :: 0 <= k < |pre| ==> prevT[base..][k].indent == k && prevT[base..][k].frameId == pre[k].id
    requires x.indent == |pre| && x.frameId == f.id
    ensures var frames := pre + [f];
            var added := (prevT + [x])[base..];
            forall k :: 0 <= k < |frames| ==> added[k].indent == k && added[k].frameId == frames[k].id
  {
    var frames := pre + [f];
    SliceOfSnoc(prevT, x, base);
    var added := (prevT + [x])[base..];
    forall k | 0 <= k < |frames| ensures added[k].indent == k && added[k].frameId == frames[k].id {
      if k < |pre| {
        assert added[k] == prevT[base..][k];
        assert frames[k] == pre[k];
      }
    }
  }

  /** `n` nested calls entered from untraced code are recorded with indents
      0, 1, ..., n-1, and the cache then holds exactly their frames. */
  lemma {:induction false} NestedCallsIndentByDepth(s: Follow, h: Heap, outer: seq<FrameId>, frames: seq<Frame>)
    requires NestedSetting(s, h, outer, frames)
    ensures var r := NestedCalls(s, h, outer, frames);
            var added := r.timings[|s.timings|..];
            && |r.timings| == |s.timings| + |frames|
            && (forall k :: 0 <= k < |frames| ==> added[k].indent == k && added[k].frameId == frames[k].id)
            && r.frameCache == CacheAfter(s, frames)
    decreases |frames|
  {
    if |frames| > 0 {
      var n := |frames| - 1;
      var pre := frames[..n];
      var f := frames[n];
      assert frames == pre + [f];
      NestedSettingPrefix(s, h, outer, pre, f);
      NestedCallsIndentByDepth(s, h, outer, pre);
      var prev := NestedCalls(s, h, outer, pre);
      NestedStep(s, h, outer, pre, f, prev);
      var r := NestedCalls(s, h, outer, frames);
      ExtendDepthPattern(|s.timings|, prev.timings, r.timings[|prev.timings|], pre, f);
    }
  }

  /** Once nested calls are over, the next call from the outer chain starts a new
      branch at indent 0 and resets the cache to its own frame. */
  lemma SiblingCallStartsAtTopLevel(s: Follow, h: Heap, outer: seq<FrameId>, frames: seq<Frame>, g: Frame)
    requires NestedSetting(s, h, outer, frames)
    requires !IsProperty(h, g.code.obj)
    ensures var before := NestedCalls(s, h, outer, frames);
            var r := TraceDispatch(before, h, outer, g, Call);
            && r.timings[|before.timings|].indent == 0
            && r.frameCache == {g.id}
  {
    NestedCallsIndentByDepth(s, h, outer, frames);
    var before := NestedCalls(s, h, outer, frames);
    forall i | 0 <= i < |outer| ensures outer[i] !in before.frameCache {
    }
  }

  function PlainCode(o: Obj, name: string): Code {
    Code(o, "/src/fact.py", 1, name)
  }

  /** `fact(3)` calling `fact(2)` calling `fact(1)` from an untraced caller gives
      three records with indents 0, 1 and 2. */
  lemma RecursiveFactorial(h: Heap)
    requires !IsProperty(h, 7)
    ensures var frames := [Frame(101, PlainCode(7, "fact")), Frame(102, PlainCode(7, "fact")), Frame(103, PlainCode(7, "fact"))];
            var r := NestedCalls(NewFollow(), h, [100], frames);
            |r.timings| == 3 && r.timings[0].indent == 0 && r.timings[1].indent == 1 && r.timings[2].indent == 2
  {
    var frames := [Frame(101, PlainCode(7, "fact")), Frame(102, PlainCode(7, "fact")), Frame(103, PlainCode(7, "fact"))];
    assert [100] + Ids(frames) == [100, 101, 102, 103];
    NestedCallsIndentByDepth(NewFollow(), h, [100], frames);
  }

  /** `f()` then `g()` from the same untraced caller both get indent 0. */
  lemma SequentialTopLevelCalls(h: Heap)
    requires !IsProperty(h, 7) && !IsProperty(h, 8)
    ensures var s1 := TraceDispatch(NewFollow(), h, [100], Frame(101, PlainCode(7, "f")), Call);
            var s2 := TraceDispatch(s1, h, [100], Frame(102, PlainCode(8, "g")), Call);
            |s2.timings| == 2 && s2.timings[0].indent == 0 && s2.timings[1].indent == 0
  {
    var f := Frame(101, PlainCode(7, "f"));
    assert [100] + Ids([f]) == [100, 101];
    assert NestedCalls(NewFollow(), h, [100], [f]) == TraceDispatch(NewFollow(), h, [100], f, Call) by {
      assert [f][..0] == [];
    }
    SiblingCallStartsAtTopLevel(NewFollow(), h, [100], [f], Frame(102, PlainCode(8, "g")));
  }

  /** An object graph for `class Parent: def bob(self): pass` with a property `x`
      elsewhere: code 1 is `bob`'s code, 2 the function, 3 the class dict, 4 the
      class `Parent`; code 11 is the getter's code, 12 its function, 13 the property.
      Object 50 (a frame still running `bob`) also refers to code 1. */
  function ParentReferrers(o: Obj): seq<Obj> {
    if o == 1 then [2, 50] else if o == 2 then [3] else if o == 3 then [4]
    else if o == 11 then [12] else if o == 12 then [13] else []
  }

  predicate ParentIsFunction(o: Obj) { o == 2 || o == 12 }
  predicate ParentIsProperty(o: Obj) { o == 13 }
  predicate ParentIsDict(o: Obj) { o == 3 }
  predicate ParentHasBases(o: Obj) { o == 4 }
  function ParentNameOf(o: Obj): string { if o == 4 then "Parent" else "" }

  function ParentHeap(): Heap {
    Heap(ParentReferrers, ParentIsFunction, ParentIsProperty, ParentIsDict, ParentHasBases, ParentNameOf)
  }

  /** With the corrected lookup (no module name), `bob`, defined in `Parent` and
      called as `tc.bob()` on a subclass instance, resolves its owner to `Parent`,
      so the name reads `Parent.bob`. */
  lemma ParentMethodResolvesOwner()
    ensures FileFunctionOf(NewFollow(), ParentHeap(), Code(1, "test_follow.py", 8, "bob")).1.funcName == "Parent.bob"
  {
    var h := ParentHeap();
    assert Filter([50], h.isFunction) == [];
    assert Filter(h.referrers(1), h.isFunction) == [2];
    assert Filter(h.referrers(2), h.isDict) == [3];
    assert Filter(h.referrers(3), h.hasBases) == [4];
  }

  /** Reading the property `x` produces no record; calling `bob` produces one. */
  lemma PropertyAccessIsSkipped(chain: seq<FrameId>)
    ensures TraceDispatch(NewFollow(), ParentHeap(), chain, Frame(200, Code(11, "t.py", 3, "x")), Call) == NewFollow()
    ensures |TraceDispatch(NewFollow(), ParentHeap(), chain, Frame(201, Code(1, "test_follow.py", 8, "bob")), Call).timings| == 1
  {
    var h := ParentHeap();
    assert h.referrers(11) == [12] && h.referrers(12) == [13];
    assert Filter([12], h.isFunction) == [12];
    assert Filter([13], h.isProperty) == [13];
    assert IsProperty(h, 11);
    assert h.referrers(1) == [2, 50] && h.referrers(2) == [3];
    assert Filter([50], h.isFunction) == [];
    assert Filter([2, 50], h.isFunction) == [2];
    assert Filter([3], h.isProperty) == [];
    assert !IsProperty(h, 1);
  }
}
