/** `RenderQueue`: the per-phase list of (sub-model, pass) draws of the
    forward pipeline. Passes are admitted by transparency and phase mask,
    keyed by a packed priority word, sorted by the queue's comparator and
    recorded one draw each. */
module RenderQueue {
  import opened Common
  import PipelineStateManager

  type Word = bv32

  /** What the queue reads of a pass: its pipeline-state inputs, priority,
      phase mask, whether blend target 0 blends, and its material set. */
  datatype PassView = PassView(state: PipelineStateManager.Pass, priority: Word, phase: Word, blend: bool,
                               descriptorSet: nat)

  /** A sub-model: its priority, passes with their shader ids and
      shaders, input assembler and local descriptor set. */
  datatype SubModel = SubModel(priority: Word, passes: seq<PassView>, shaderIDs: seq<nat>,
                               shaders: seq<PipelineStateManager.Shader>,
                               ia: PipelineStateManager.InputAssembler, descriptorSet: nat)

  predicate SubModelOk(sm: SubModel) {
    |sm.shaderIDs| == |sm.passes| && |sm.shaders| == |sm.passes| && |sm.passes| < U32_LIMIT
  }

  /** A render object: the model's sub-models and the object's depth. */
  datatype RenderObject = RenderObject(depth: real, subModels: seq<SubModel>)

  /** One queued draw (`RenderPass` in the engine). */
  datatype Entry = Entry(hash: Word, depth: real, shaderID: nat, passIndex: nat, subModel: SubModel)

  /** The queue's creation info: which passes it takes and how it sorts.
      The comparator is the pipeline's, supplied from outside. */
  datatype Desc = Desc(isTransparent: bool, phases: Word, sortFunc: (Entry, Entry) -> bool)

  /** The sort key: pass priority in bits 16 and up, sub-model priority
      from bit 8, pass index in the low bits, combined by bitwise or
      (the leading `0 << 30` contributes nothing). */
  function SortKey(passPriority: Word, subModelPriority: Word, passIdx: Word): Word {
    (passPriority << 16) | (subModelPriority << 8) | passIdx
  }

  /** With 8-bit priorities and pass index the key packs the three fields
      without overlap: each can be read back. */
  lemma SortKeyFields(pp: Word, sp: Word, pi: Word)
    requires pp < 0x100 && sp < 0x100 && pi < 0x100
    ensures SortKey(pp, sp, pi) >> 16 == pp
    ensures (SortKey(pp, sp, pi) >> 8) & 0xFF == sp
    ensures SortKey(pp, sp, pi) & 0xFF == pi
  {
  }

  /** Under the same bounds, keys order draws by pass priority first,
      then by sub-model priority, then by pass index. */
  lemma SortKeyByPassPriority(pp: Word, sp: Word, pi: Word, pp': Word, sp': Word, pi': Word)
    requires pp < 0x100 && sp < 0x100 && pi < 0x100
    requires pp' < 0x100 && sp' < 0x100 && pi' < 0x100
    requires pp < pp'
    ensures SortKey(pp, sp, pi) < SortKey(pp', sp', pi')
  {
  }

  lemma SortKeyBySubModelPriority(pp: Word, sp: Word, pi: Word, sp': Word, pi': Word)
    requires pp < 0x100 && sp < 0x100 && pi < 0x100 && sp' < 0x100 && pi' < 0x100
    requires sp < sp'
    ensures SortKey(pp, sp, pi) < SortKey(pp, sp', pi')
  {
  }

  lemma SortKeyByPassIndex(pp: Word, sp: Word, pi: Word, pi': Word)
    requires pp < 0x100 && sp < 0x100 && pi < 0x100 && pi' < 0x100
    requires pi < pi'
    ensures SortKey(pp, sp, pi) < SortKey(pp, sp, pi')
  {
  }

  /** A pass index of 256 or more spills into the sub-model priority's
      bits, so distinct draws can share a key. */
  lemma SortKeyFieldsOverlap()
    ensures SortKey(0, 1, 0) == SortKey(0, 0, 0x100)
  {
  }

  /** Whether the queue admits a pass. */
  predicate Admits(desc: Desc, pass: PassView) {
    pass.blend == desc.isTransparent && pass.phase & desc.phases != 0
  }

  /** `insertRenderPass`: admit pass `passIdx` of sub-model `subModelIdx`
      and append its entry, or refuse and leave the queue alone. */
  function InsertRenderPass(q: seq<Entry>, desc: Desc, obj: RenderObject, subModelIdx: nat, passIdx: nat)
    : (r: (seq<Entry>, bool))
    requires subModelIdx < |obj.subModels| && SubModelOk(obj.subModels[subModelIdx])
    requires passIdx < |obj.subModels[subModelIdx].passes|
    ensures var sm := obj.subModels[subModelIdx];
      r.1 <==> sm.passes[passIdx].blend == desc.isTransparent && sm.passes[passIdx].phase & desc.phases != 0
    ensures !r.1 ==> r.0 == q
    ensures r.1 ==> |r.0| == |q| + 1 && r.0[..|q|] == q
    ensures r.1 ==> var sm := obj.subModels[subModelIdx]; var e := r.0[|q|];
      && e.hash == SortKey(sm.passes[passIdx].priority, sm.priority, passIdx as Word)
      && e.depth == obj.depth && e.shaderID == sm.shaderIDs[passIdx]
      && e.passIndex == passIdx && e.subModel == sm
  {
    var sm := obj.subModels[subModelIdx];
    var pass := sm.passes[passIdx];
    if !Admits(desc, pass) then (q, false)
    else
      var e := Entry(SortKey(pass.priority, sm.priority, passIdx as Word), obj.depth, sm.shaderIDs[passIdx],
                     passIdx, sm);
      (q + [e], true)
  }

  /** `clear`: the queue empties. */
  function Clear(q: seq<Entry>): (r: seq<Entry>)
    ensures |r| == 0
  {
    []
  }

  // ------------------------------------------------------------------ sort

  /** What `std::sort` asks of a comparator: asymmetric, and "not less"
      is transitive (a strict weak order). */
  ghost predicate Asymmetric(less: (Entry, Entry) -> bool) {
    forall a, b :: less(a, b) ==> !less(b, a)
  }

  ghost predicate NotLessTransitive(less: (Entry, Entry) -> bool) {
    forall a, b, c :: !less(a, b) && !less(b, c) ==> !less(a, c)
  }

  ghost predicate StrictWeakOrder(less: (Entry, Entry) -> bool) {
    Asymmetric(less) && NotLessTransitive(less)
  }

  /** No later entry is less than an earlier one. */
  ghost predicate Sorted(q: seq<Entry>, less: (Entry, Entry) -> bool) {
    forall i, j :: 0 <= i < j < |q| ==> !less(q[j], q[i])
  }

  /** No entry is less than the one before it. */
  ghost predicate SortedAdjacent(q: seq<Entry>, less: (Entry, Entry) -> bool) {
    forall i :: 0 < i < |q| ==> !less(q[i], q[i - 1])
  }

  /** For a strict weak order, neighbours in order means all in order. */
  lemma {:induction false} AdjacentIsSorted(q: seq<Entry>, less: (Entry, Entry) -> bool)
    requires NotLessTransitive(less) && SortedAdjacent(q, less)
    ensures Sorted(q, less)
  {
    forall i, j | 0 <= i < j < |q| ensures !less(q[j], q[i]) {
      InOrder(q, less, i, j);
    }
  }

  lemma {:induction false} InOrder(q: seq<Entry>, less: (Entry, Entry) -> bool, i: nat, j: nat)
    requires NotLessTransitive(less) && SortedAdjacent(q, less) && i < j < |q|
    ensures !less(q[j], q[i])
    decreases j - i
  {
    if i < j - 1 {
      InOrder(q, less, i, j - 1);
      assert !less(q[j], q[j - 1]);
    }
  }

  /** `x` inserted into `s` before the first entry that is not less than
      it. */
  function Insert(x: Entry, s: seq<Entry>, less: (Entry, Entry) -> bool): (r: seq<Entry>)
    ensures multiset(r) == multiset(s) + multiset{x}
    ensures |r| == |s| + 1
    ensures r[0] == x || (|s| > 0 && r[0] == s[0])
    decreases |s|
  {
    if |s| == 0 then [x]
    else if !less(s[0], x) then [x] + s
    else
      assert s == [s[0]] + s[1..];
      [s[0]] + Insert(x, s[1..], less)
  }

  /** Inserting keeps neighbours in order. */
  lemma {:induction false} InsertSorted(x: Entry, s: seq<Entry>, less: (Entry, Entry) -> bool)
    requires Asymmetric(less) && SortedAdjacent(s, less)
    ensures SortedAdjacent(Insert(x, s, less), less)
    decreases |s|
  {
    if |s| > 0 && less(s[0], x) {
      var rest := Insert(x, s[1..], less);
      assert SortedAdjacent(s[1..], less) by {
        forall i | 0 < i < |s[1..]| ensures !less(s[1..][i], s[1..][i - 1]) {
          assert s[1..][i] == s[i + 1] && s[1..][i - 1] == s[i];
        }
      }
      InsertSorted(x, s[1..], less);
      var r := [s[0]] + rest;
      assert !less(rest[0], s[0]) by {
        if rest[0] == x {
        } else {
          assert rest[0] == s[1];
        }
      }
      forall i | 0 < i < |r| ensures !less(r[i], r[i - 1]) {
        if i > 1 {
          assert r[i] == rest[i - 1] && r[i - 1] == rest[i - 2];
        }
      }
    } else if |s| > 0 {
      var r := [x] + s;
      forall i | 0 < i < |r| ensures !less(r[i], r[i - 1]) {
        if i > 1 {
          assert r[i] == s[i - 1] && r[i - 1] == s[i - 2];
        }
      }
    }
  }

  /** `sort`: the queue reordered by the comparator. The model sorts by
      stable insertion while `std::sort` is not stable. Both yield a
      permutation, sorted under a strict weak order (`SortSorts`); entries
      the comparator ties may come out in another order. */
  function Sort(q: seq<Entry>, less: (Entry, Entry) -> bool): (r: seq<Entry>)
    ensures multiset(r) == multiset(q)
    ensures |r| == |q|
    decreases |q|
  {
    if |q| == 0 then []
    else
      assert q == q[..|q| - 1] + [q[|q| - 1]];
      Insert(q[|q| - 1], Sort(q[..|q| - 1], less), less)
  }

  /** With a strict weak order, `sort` yields a sorted permutation. */
  lemma {:induction false} SortSorts(q: seq<Entry>, less: (Entry, Entry) -> bool)
    requires StrictWeakOrder(less)
    ensures Sorted(Sort(q, less), less) && multiset(Sort(q, less)) == multiset(q)
  {
    SortSortsAdjacent(q, less);
    AdjacentIsSorted(Sort(q, less), less);
  }

  lemma {:induction false} SortSortsAdjacent(q: seq<Entry>, less: (Entry, Entry) -> bool)
    requires Asymmetric(less)
    ensures SortedAdjacent(Sort(q, less), less)
    decreases |q|
  {
    if |q| > 0 {
      SortSortsAdjacent(q[..|q| - 1], less);
      InsertSorted(q[|q| - 1], Sort(q[..|q| - 1], less), less);
    }
  }

  /** The queue sorted by its own comparator. */
  function SortQueue(q: seq<Entry>, desc: Desc): (r: seq<Entry>)
    requires StrictWeakOrder(desc.sortFunc)
    ensures multiset(r) == multiset(q) && Sorted(r, desc.sortFunc)
  {
    SortSorts(q, desc.sortFunc);
    Sort(q, desc.sortFunc)
  }

  // ---------------------------------------------------------------- record

  /** Descriptor-set slots of the pipeline layout. */
  const MATERIAL_SET: nat := 1
  const LOCAL_SET: nat := 2

  /** The commands recording issues. */
  datatype Command =
    | BindPipelineState(pso: PipelineStateManager.Pso)
    | BindDescriptorSet(slot: nat, descriptorSet: nat)
    | BindInputAssembler(ia: PipelineStateManager.InputAssembler)
    | Draw(ia: PipelineStateManager.InputAssembler)

  predicate EntryOk(e: Entry) {
    SubModelOk(e.subModel) && e.passIndex < |e.subModel.passes|
  }

  /** The memo slot an entry's pipeline state lives in. */
  function EntrySlot(e: Entry, renderPass: PipelineStateManager.RenderPass): nat
    requires EntryOk(e)
  {
    PipelineStateManager.Slot(e.subModel.passes[e.passIndex].state, e.subModel.shaders[e.passIndex],
                              e.subModel.ia, renderPass)
  }

  /** The five commands of one entry: pipeline, material set, local set,
      input assembler, draw. */
  function EntryCommands(e: Entry, pso: PipelineStateManager.Pso): seq<Command>
    requires EntryOk(e)
  {
    [BindPipelineState(pso), BindDescriptorSet(MATERIAL_SET, e.subModel.passes[e.passIndex].descriptorSet),
     BindDescriptorSet(LOCAL_SET, e.subModel.descriptorSet), BindInputAssembler(e.subModel.ia),
     Draw(e.subModel.ia)]
  }

  /** The result of recording: the pipeline-state memo afterwards, the
      commands, and the pipeline state each entry was drawn with. */
  datatype Recorded = Recorded(cache: PipelineStateManager.Cache, commands: seq<Command>,
                               psos: seq<PipelineStateManager.Pso>)

  /** The memo lookup recording does for an entry. */
  function Fetch(cache: PipelineStateManager.Cache, e: Entry, renderPass: PipelineStateManager.RenderPass,
                 handle: nat): PipelineStateManager.Lookup
    requires EntryOk(e)
  {
    PipelineStateManager.GetOrCreate(cache, e.subModel.passes[e.passIndex].state, e.subModel.shaders[e.passIndex],
                                     e.subModel.ia, renderPass, handle)
  }

  /** `recordCommandBuffer`: each entry in queue order, with its pipeline
      state fetched or created (`handles[i]` is the handle the device would
      give entry `i`'s new state). */
  function Record(q: seq<Entry>, renderPass: PipelineStateManager.RenderPass, cache: PipelineStateManager.Cache,
                  handles: seq<nat>): (r: Recorded)
    requires |handles| == |q| && forall i :: 0 <= i < |q| ==> EntryOk(q[i])
    ensures |r.commands| == 5 * |q| && |r.psos| == |q|
    ensures forall k :: k in cache ==> k in r.cache && r.cache[k] == cache[k]
    ensures forall i :: 0 <= i < |q| ==> EntrySlot(q[i], renderPass) in r.cache
    ensures forall i :: 0 <= i < |q| ==> r.cache[EntrySlot(q[i], renderPass)] == r.psos[i]
    decreases |q|
  {
    if |q| == 0 then Recorded(cache, [], [])
    else
      assert EntryOk(q[0]);
      var l := Fetch(cache, q[0], renderPass, handles[0]);
      assert EntrySlot(q[0], renderPass) in l.cache && l.cache[EntrySlot(q[0], renderPass)] == l.pso;
      var rest := Record(q[1..], renderPass, l.cache, handles[1..]);
      assert forall i :: 1 <= i < |q| ==> q[i] == q[1..][i - 1];
      Recorded(rest.cache, EntryCommands(q[0], l.pso) + rest.commands, [l.pso] + rest.psos)
  }

  /** Recording a non-empty queue is recording its head, then its tail
      on the memo the head left. */
  lemma RecordUnfold(q: seq<Entry>, renderPass: PipelineStateManager.RenderPass,
                     cache: PipelineStateManager.Cache, handles: seq<nat>)
    requires |handles| == |q| && forall k :: 0 <= k < |q| ==> EntryOk(q[k])
    requires |q| > 0
    ensures EntryOk(q[0])
    ensures var l := Fetch(cache, q[0], renderPass, handles[0]);
      var rest := Record(q[1..], renderPass, l.cache, handles[1..]);
      && Record(q, renderPass, cache, handles).commands == EntryCommands(q[0], l.pso) + rest.commands
      && Record(q, renderPass, cache, handles).psos == [l.pso] + rest.psos
  {
    assert EntryOk(q[0]);
  }

  /** A five-wide window past a five-long head lies in the tail, and so
      does the matching element past a one-long head. */
  lemma WindowPastHead<T, U>(c: seq<T>, head: seq<T>, tail: seq<T>, ps: seq<U>, p: U, rest: seq<U>, i: nat)
    requires c == head + tail && ps == [p] + rest
    requires |head| == 5 && 1 <= i < |ps| && 5 * i + 5 <= |c|
    ensures c[5 * i..5 * i + 5] == tail[5 * (i - 1)..5 * (i - 1) + 5]
    ensures ps[i] == rest[i - 1]
  {
  }

  /** The head entry's five commands open the recording. */
  lemma RecordAtHead(q: seq<Entry>, renderPass: PipelineStateManager.RenderPass,
                     cache: PipelineStateManager.Cache, handles: seq<nat>)
    requires |handles| == |q| && forall k :: 0 <= k < |q| ==> EntryOk(q[k])
    requires 0 < |q|
    ensures var r := Record(q, renderPass, cache, handles);
      r.commands[..5] == EntryCommands(q[0], r.psos[0])
  {
    RecordUnfold(q, renderPass, cache, handles);
  }

  /** Entry `i`'s five commands sit at `5 * i`, drawn with its state. */
  lemma {:induction false} RecordAt(q: seq<Entry>, renderPass: PipelineStateManager.RenderPass,
                                    cache: PipelineStateManager.Cache, handles: seq<nat>, i: nat)
    requires |handles| == |q| && forall k :: 0 <= k < |q| ==> EntryOk(q[k])
    requires i < |q|
    ensures var r := Record(q, renderPass, cache, handles);
      r.commands[5 * i..5 * i + 5] == EntryCommands(q[i], r.psos[i])
    decreases i
  {
    if i == 0 {
      RecordAtHead(q, renderPass, cache, handles);
    } else {
      RecordUnfold(q, renderPass, cache, handles);
      var l := Fetch(cache, q[0], renderPass, handles[0]);
      var tail, tailHandles := q[1..], handles[1..];
      var rest := Record(tail, renderPass, l.cache, tailHandles);
      RecordAt(tail, renderPass, l.cache, tailHandles, i - 1);
      var r := Record(q, renderPass, cache, handles);
      WindowPastHead(r.commands, EntryCommands(q[0], l.pso), rest.commands, r.psos, l.pso, rest.psos, i);
      assert tail[i - 1] == q[i];
    }
  }

  /** Number of draws among commands. */
  function DrawCount(cs: seq<Command>): nat
    decreases |cs|
  {
    if |cs| == 0 then 0 else (if cs[0].Draw? then 1 else 0) + DrawCount(cs[1..])
  }

  lemma {:induction false} DrawCountAppend(a: seq<Command>, b: seq<Command>)
    ensures DrawCount(a + b) == DrawCount(a) + DrawCount(b)
    decreases |a|
  {
    if |a| == 0 {
      assert a + b == b;
    } else {
      assert (a + b)[1..] == a[1..] + b;
      DrawCountAppend(a[1..], b);
    }
  }

  /** Recording draws exactly once per entry. */
  lemma {:induction false} RecordDrawsOncePerEntry(q: seq<Entry>, renderPass: PipelineStateManager.RenderPass,
                                                   cache: PipelineStateManager.Cache, handles: seq<nat>)
    requires |handles| == |q| && forall k :: 0 <= k < |q| ==> EntryOk(q[k])
    ensures DrawCount(Record(q, renderPass, cache, handles).commands) == |q|
    decreases |q|
  {
    if |q| > 0 {
      assert EntryOk(q[0]);
      var l := Fetch(cache, q[0], renderPass, handles[0]);
      RecordDrawsOncePerEntry(q[1..], renderPass, l.cache, handles[1..]);
      var head := EntryCommands(q[0], l.pso);
      DrawCountAppend(head, Record(q[1..], renderPass, l.cache, handles[1..]).commands);
      DrawCountOfEntry(q[0], l.pso);
    }
  }

  /** An entry's commands hold exactly one draw, the last. */
  lemma DrawCountOfEntry(e: Entry, pso: PipelineStateManager.Pso)
    requires EntryOk(e)
    ensures DrawCount(EntryCommands(e, pso)) == 1
  {
    var c := EntryCommands(e, pso);
    assert c[4..][1..] == [];
    assert DrawCount(c[4..]) == 1;
    assert c[3..][1..] == c[4..];
    assert DrawCount(c[3..]) == 1;
    assert c[2..][1..] == c[3..];
    assert DrawCount(c[2..]) == 1;
    assert c[1..][1..] == c[2..];
    assert DrawCount(c[1..]) == 1;
  }
}
