/** The command package shared by the GLES2 and GLES3 deferred command
    buffers: an ordered tag list (`cmds`) plus one array of pooled record
    handles per command type. Records live in a `Heap` of pooled commands
    carrying a reference count; a package stores handles, so splicing a
    package into another shares records instead of copying them. */
module CommandPackage {
  import opened Common
  import CA = CachedArray

  /** `GFXCmdType`: the tags a deferred command buffer records. */
  datatype GFXCmdType =
    | BEGIN_RENDER_PASS
    | END_RENDER_PASS
    | BIND_STATES
    | DRAW
    | UPDATE_BUFFER
    | COPY_BUFFER_TO_TEXTURE

  /** Identity of a pooled command record (its address in the engine). */
  type Handle = nat

  /** A command record plus the reference count bumped by `execute`. */
  datatype Pooled<R> = Pooled(rec: R, refCount: nat)

  /** The pool of command records: every handle below `next` has been
      handed out, and fresh ones are taken from `next`. */
  datatype Heap<R> = Heap(cmds: map<Handle, Pooled<R>>, next: Handle) {
    ghost predicate Valid() { forall h :: h in cmds ==> h < next }
  }

  /** Allocate a record from the pool with a zero reference count. */
  function Alloc<R>(heap: Heap<R>, rec: R): (r: (Heap<R>, Handle))
    requires heap.Valid()
    ensures r.0.Valid()
    ensures r.1 == heap.next && r.1 !in heap.cmds && r.1 in r.0.cmds && r.0.cmds[r.1] == Pooled(rec, 0)
    ensures forall h :: h in heap.cmds ==> h in r.0.cmds && r.0.cmds[h] == heap.cmds[h]
    ensures r.0.cmds.Keys == heap.cmds.Keys + {r.1}
  {
    (Heap(heap.cmds[heap.next := Pooled(rec, 0)], heap.next + 1), heap.next)
  }

  /** Increment the reference count of each pooled handle of `hs`, once
      per occurrence. */
  function BumpAll<R>(heap: Heap<R>, hs: seq<Handle>): (r: Heap<R>)
    requires heap.Valid()
    ensures r.Valid() && r.next == heap.next && r.cmds.Keys == heap.cmds.Keys
    ensures forall h :: h in heap.cmds ==>
      r.cmds[h] == heap.cmds[h].(refCount := heap.cmds[h].refCount + multiset(hs)[h])
    decreases |hs|
  {
    if |hs| == 0 then heap
    else
      var h := hs[|hs| - 1];
      var prev := BumpAll(heap, hs[..|hs| - 1]);
      assert hs == hs[..|hs| - 1] + [h];
      BumpOne(prev, h)
  }

  /** One more reference to `h`, when it is pooled. */
  function BumpOne<R>(heap: Heap<R>, h: Handle): Heap<R> {
    if h in heap.cmds then Heap(heap.cmds[h := heap.cmds[h].(refCount := heap.cmds[h].refCount + 1)], heap.next)
    else heap
  }

  /** Bumping `a` and then `b` is bumping `a + b`. */
  lemma {:induction false} BumpAllAppend<R>(heap: Heap<R>, a: seq<Handle>, b: seq<Handle>)
    requires heap.Valid()
    ensures BumpAll(BumpAll(heap, a), b) == BumpAll(heap, a + b)
    decreases |b|
  {
    if |b| == 0 {
      assert a + b == a;
    } else {
      var b', x := b[..|b| - 1], b[|b| - 1];
      assert (a + b)[..|a + b| - 1] == a + b';
      assert (a + b)[|a + b| - 1] == x;
      BumpAllAppend(heap, a, b');
      calc {
        BumpAll(heap, a + b);
        BumpOne(BumpAll(heap, a + b'), x);
        BumpOne(BumpAll(BumpAll(heap, a), b'), x);
        BumpAll(BumpAll(heap, a), b);
      }
    }
  }

  datatype Package = Package(
    cmds: CA.CachedArray<GFXCmdType>,
    beginRenderPassCmds: CA.CachedArray<Handle>,
    bindStatesCmds: CA.CachedArray<Handle>,
    drawCmds: CA.CachedArray<Handle>,
    updateBufferCmds: CA.CachedArray<Handle>,
    copyBufferToTextureCmds: CA.CachedArray<Handle>)
  {
    /** The record array that holds the records of tag `t`
        (`END_RENDER_PASS` has none). */
    function Records(t: GFXCmdType): seq<Handle> {
      match t
      case BEGIN_RENDER_PASS => beginRenderPassCmds.elems
      case END_RENDER_PASS => []
      case BIND_STATES => bindStatesCmds.elems
      case DRAW => drawCmds.elems
      case UPDATE_BUFFER => updateBufferCmds.elems
      case COPY_BUFFER_TO_TEXTURE => copyBufferToTextureCmds.elems
    }

    /** Every record handle of the package, type by type. */
    function AllRecords(): seq<Handle> {
      beginRenderPassCmds.elems + bindStatesCmds.elems + drawCmds.elems
        + updateBufferCmds.elems + copyBufferToTextureCmds.elems
    }

    /** Storage invariants of the six arrays. */
    ghost predicate WellFormed() {
      && cmds.Valid() && cmds.capacity >= 1
      && beginRenderPassCmds.Valid() && beginRenderPassCmds.capacity >= 1
      && bindStatesCmds.Valid() && bindStatesCmds.capacity >= 1
      && drawCmds.Valid() && drawCmds.capacity >= 1
      && updateBufferCmds.Valid() && updateBufferCmds.capacity >= 1
      && copyBufferToTextureCmds.Valid() && copyBufferToTextureCmds.capacity >= 1
    }

    /** Each tag other than `END_RENDER_PASS` has exactly one record in the
        array of its type. */
    ghost predicate Consistent() {
      forall t :: t != END_RENDER_PASS ==> multiset(cmds.elems)[t] == |Records(t)|
    }

    ghost predicate Valid() { WellFormed() && Consistent() }
  }

  /** A package with empty arrays of the default capacity. */
  function EmptyPackage(): (p: Package)
    ensures p.Valid() && |p.cmds.elems| == 0
    ensures forall t :: p.Records(t) == []
  {
    Package(CA.New(1), CA.New(1), CA.New(1), CA.New(1), CA.New(1), CA.New(1))
  }

  /** `clearCmds`: empty every array, keeping storage. */
  function ClearPackage(p: Package): (r: Package)
    requires p.Valid()
    ensures r.Valid() && |r.cmds.elems| == 0
    ensures forall t :: r.Records(t) == []
    ensures r.cmds.capacity == p.cmds.capacity
  {
    Package(CA.Clear(p.cmds), CA.Clear(p.beginRenderPassCmds), CA.Clear(p.bindStatesCmds),
      CA.Clear(p.drawCmds), CA.Clear(p.updateBufferCmds), CA.Clear(p.copyBufferToTextureCmds))
  }

  /** The record array of tag `t` as stored. */
  function RecordArray(p: Package, t: GFXCmdType): (a: CA.CachedArray<Handle>)
    requires p.WellFormed() && t != END_RENDER_PASS
    ensures a.Valid() && a.capacity >= 1 && a.elems == p.Records(t)
  {
    match t
    case BEGIN_RENDER_PASS => p.beginRenderPassCmds
    case BIND_STATES => p.bindStatesCmds
    case DRAW => p.drawCmds
    case UPDATE_BUFFER => p.updateBufferCmds
    case COPY_BUFFER_TO_TEXTURE => p.copyBufferToTextureCmds
  }

  /** `p` with the record array of tag `t` replaced by `a`. */
  function WithRecordArray(p: Package, t: GFXCmdType, a: CA.CachedArray<Handle>): (r: Package)
    requires p.WellFormed() && t != END_RENDER_PASS && a.Valid() && a.capacity >= 1
    ensures r.WellFormed() && r.cmds == p.cmds
    ensures r.Records(t) == a.elems
    ensures forall u :: u != t ==> r.Records(u) == p.Records(u)
  {
    match t
    case BEGIN_RENDER_PASS => p.(beginRenderPassCmds := a)
    case BIND_STATES => p.(bindStatesCmds := a)
    case DRAW => p.(drawCmds := a)
    case UPDATE_BUFFER => p.(updateBufferCmds := a)
    case COPY_BUFFER_TO_TEXTURE => p.(copyBufferToTextureCmds := a)
  }

  /** Push the record `h` on the array of tag `t`, then the tag itself. */
  function PushCmd(p: Package, t: GFXCmdType, h: Handle): (r: Package)
    requires p.Valid() && t != END_RENDER_PASS
    ensures r.Valid()
    ensures r.cmds.elems == p.cmds.elems + [t]
    ensures r.Records(t) == p.Records(t) + [h]
    ensures forall u :: u != t ==> r.Records(u) == p.Records(u)
  {
    var q := WithRecordArray(p, t, CA.Push(RecordArray(p, t), h));
    var r := q.(cmds := CA.Push(p.cmds, t));
    assert forall u :: multiset(r.cmds.elems)[u] == multiset(p.cmds.elems)[u] + (if u == t then 1 else 0);
    r
  }

  /** Push a tag that has no record (`END_RENDER_PASS`). */
  function PushEnd(p: Package): (r: Package)
    requires p.Valid()
    ensures r.Valid()
    ensures r.cmds.elems == p.cmds.elems + [END_RENDER_PASS]
    ensures forall u :: r.Records(u) == p.Records(u)
  {
    p.(cmds := CA.Push(p.cmds, END_RENDER_PASS))
  }

  /** The splice `execute` performs: push every record of `q`, type by type
      and in order, onto `p`'s arrays, then concatenate the tag lists. */
  function Splice(p: Package, q: Package): (r: Package)
    requires p.Valid() && q.Valid()
    ensures r.Valid()
    ensures r.cmds.elems == p.cmds.elems + q.cmds.elems
    ensures forall t :: r.Records(t) == p.Records(t) + q.Records(t)
  {
    CA.PushAllSpec(p.beginRenderPassCmds, q.beginRenderPassCmds.elems);
    CA.PushAllSpec(p.bindStatesCmds, q.bindStatesCmds.elems);
    CA.PushAllSpec(p.drawCmds, q.drawCmds.elems);
    CA.PushAllSpec(p.updateBufferCmds, q.updateBufferCmds.elems);
    CA.PushAllSpec(p.copyBufferToTextureCmds, q.copyBufferToTextureCmds.elems);
    Package(
      CA.Concat(p.cmds, q.cmds),
      CA.PushAll(p.beginRenderPassCmds, q.beginRenderPassCmds.elems),
      CA.PushAll(p.bindStatesCmds, q.bindStatesCmds.elems),
      CA.PushAll(p.drawCmds, q.drawCmds.elems),
      CA.PushAll(p.updateBufferCmds, q.updateBufferCmds.elems),
      CA.PushAll(p.copyBufferToTextureCmds, q.copyBufferToTextureCmds.elems))
  }

  /** One step of replaying a package: the tag and the record it refers to. */
  datatype Step = Step(tag: GFXCmdType, rec: Option<Handle>)

  function StepAt(t: GFXCmdType, records: seq<Handle>, i: nat): Step {
    if t == END_RENDER_PASS || i >= |records| then Step(t, None) else Step(t, Some(records[i]))
  }

  /** Replay order: the k-th tag refers to the n-th record of its type,
      where n counts the earlier tags of that type. Records are executed in
      tag order, not array order. */
  function ReplayOf(cmds: seq<GFXCmdType>, recs: GFXCmdType -> seq<Handle>): (r: seq<Step>)
    ensures |r| == |cmds|
    decreases |cmds|
  {
    if |cmds| == 0 then []
    else
      var prefix := cmds[..|cmds| - 1];
      var t := cmds[|cmds| - 1];
      ReplayOf(prefix, recs) + [StepAt(t, recs(t), multiset(prefix)[t])]
  }

  function Replay(p: Package): seq<Step> {
    ReplayOf(p.cmds.elems, p.Records)
  }

  /** Replaying a tag list followed by another, over record arrays that
      were extended by the second list's records, replays the first list
      unchanged and then the second one on its own records. */
  lemma {:induction false} ReplayAppend(a: seq<GFXCmdType>, b: seq<GFXCmdType>,
                                         ra: GFXCmdType -> seq<Handle>, rb: GFXCmdType -> seq<Handle>,
                                         rab: GFXCmdType -> seq<Handle>)
    requires forall t :: t != END_RENDER_PASS ==> multiset(a)[t] == |ra(t)|
    requires forall t :: rab(t) == ra(t) + rb(t)
    ensures ReplayOf(a + b, rab) == ReplayOf(a, ra) + ReplayOf(b, rb)
    decreases |b|
  {
    if |b| == 0 {
      assert a + b == a;
      ReplayPrefixStable(a, ra, rab);
    } else {
      var b' := b[..|b| - 1];
      var t := b[|b| - 1];
      assert (a + b)[..|a + b| - 1] == a + b';
      ReplayAppend(a, b', ra, rb, rab);
      var n := multiset(a + b')[t];
      assert n == multiset(a)[t] + multiset(b')[t];
      if t != END_RENDER_PASS {
        var m := multiset(b')[t];
        if m < |rb(t)| {
          assert rab(t)[n] == rb(t)[m];
        }
      }
      assert StepAt(t, rab(t), n) == StepAt(t, rb(t), multiset(b')[t]);
    }
  }

  /** Replaying a consistent tag list only reads the records its own tags
      account for, so extending the arrays does not change it. */
  lemma {:induction false} ReplayPrefixStable(a: seq<GFXCmdType>, ra: GFXCmdType -> seq<Handle>,
                                               rab: GFXCmdType -> seq<Handle>)
    requires forall t :: t != END_RENDER_PASS ==> multiset(a)[t] <= |ra(t)|
    requires forall t :: |ra(t)| <= |rab(t)| && rab(t)[..|ra(t)|] == ra(t)
    ensures ReplayOf(a, rab) == ReplayOf(a, ra)
    decreases |a|
  {
    if |a| > 0 {
      var prefix := a[..|a| - 1];
      var t := a[|a| - 1];
      assert a == prefix + [t];
      ReplayPrefixStable(prefix, ra, rab);
      if t != END_RENDER_PASS {
        var n := multiset(prefix)[t];
        assert n < |ra(t)|;
        assert rab(t)[n] == rab(t)[..|ra(t)|][n];
      }
    }
  }

  /** Recording one command appends exactly one replay step. */
  lemma PushCmdReplay(p: Package, t: GFXCmdType, h: Handle)
    requires p.Valid() && t != END_RENDER_PASS
    ensures Replay(PushCmd(p, t, h)) == Replay(p) + [Step(t, Some(h))]
  {
    var r := PushCmd(p, t, h);
    var rb := (u: GFXCmdType) => if u == t then [h] else [];
    forall u ensures r.Records(u) == p.Records(u) + rb(u) { }
    ReplayAppend(p.cmds.elems, [t], p.Records, rb, r.Records);
    assert ReplayOf([t], rb) == [Step(t, Some(h))] by {
      assert [t][..0] == [];
    }
  }

  /** Recording `END_RENDER_PASS` appends one step with no record. */
  lemma PushEndReplay(p: Package)
    requires p.Valid()
    ensures Replay(PushEnd(p)) == Replay(p) + [Step(END_RENDER_PASS, None)]
  {
    var r := PushEnd(p);
    var rb := (u: GFXCmdType) => [];
    forall u ensures r.Records(u) == p.Records(u) + rb(u) { }
    ReplayAppend(p.cmds.elems, [END_RENDER_PASS], p.Records, rb, r.Records);
    assert [END_RENDER_PASS][..0] == [];
  }

  /** Splicing a package replays the receiving package and then the spliced
      one, each step referring to the same shared record. */
  lemma SpliceReplay(p: Package, q: Package)
    requires p.Valid() && q.Valid()
    ensures Replay(Splice(p, q)) == Replay(p) + Replay(q)
  {
    var r := Splice(p, q);
    ReplayAppend(p.cmds.elems, q.cmds.elems, p.Records, q.Records, r.Records);
  }
}
