/** The Communicator of src/communicator.cpp: it fetches the rows a unit of
    training work needs into pooled buffers attached to the work unit
    (`RequestParameter`), and later pushes back the thread-averaged delta
    between the locally updated rows and the rows the shared tables hold at
    that moment (`AddDeltaParameter`). Tables are ideal maps from node id to
    row, the memory manager is the handle pool of `BufferPool`, and the
    timing and logging calls are left out. */
module Communicator {
  import opened Wrappers
  import opened Seqs
  import opened BufferPool
  import opened ParamTables

  /** The four matrix tables: `kInputEmbeddingTableId`,
      `kEmbeddingOutputTableId`, and the AdaGrad accumulators
      `kSumGradient2IETableId` and `kSumGradient2EOTableId`. */
  datatype TableKind = InputEmbedding | OutputEmbedding | InputGradient | OutputGradient

  /** The options the Communicator reads: the embedding size (row length),
      the number of local update threads, and whether AdaGrad is on. */
  datatype Options = Options(embeddingSize: nat, threadCnt: nat, useAdagrad: bool)

  /** A unit of training work: its input and output node ids (kept in sets in
      the source, so without repeats) and, per table, the buffer attached to
      each node by the `SetWeightIE`/`SetWeightEO`/`SetSumGradient2IE`/
      `SetSumGradient2EO` setters and read back by the matching getters. */
  datatype DataBlock = DataBlock(inputNodes: seq<int>, outputNodes: seq<int>, slots: map<TableKind, map<int, Buffer>>)

  /** The shared tables, the global word counter, and the memory manager. */
  datatype State = State(tables: map<TableKind, Table>, wordCount: int, pool: Pool)

  /** Input nodes go with the input-side tables, output nodes with the
      output-side tables. */
  function NodesFor(b: DataBlock, kind: TableKind): seq<int> {
    match kind
    case InputEmbedding => b.inputNodes
    case InputGradient => b.inputNodes
    case OutputEmbedding => b.outputNodes
    case OutputGradient => b.outputNodes
  }

  /** The node-to-buffer map of one table (empty when nothing is attached). */
  function SlotsOf(b: DataBlock, kind: TableKind): map<int, Buffer> {
    if kind in b.slots then b.slots[kind] else map[]
  }

  /** Node ids come out of sets, so neither list repeats a node. */
  ghost predicate WellFormed(b: DataBlock) {
    Distinct(b.inputNodes) && Distinct(b.outputNodes)
  }

  /** One table exists, its rows have the embedding size, and it has a row
      for every node the block names for it. */
  ghost predicate TableFits(s: State, opt: Options, b: DataBlock, kind: TableKind) {
    && kind in s.tables
    && Shaped(s.tables[kind], opt.embeddingSize)
    && Holds(s.tables[kind], NodesFor(b, kind))
  }

  /** The pool is consistent and every active table fits the block. */
  ghost predicate Covers(s: State, opt: Options, b: DataBlock) {
    && Valid(s.pool)
    && TableFits(s, opt, b, InputEmbedding) && TableFits(s, opt, b, OutputEmbedding)
    && (opt.useAdagrad ==> TableFits(s, opt, b, InputGradient) && TableFits(s, opt, b, OutputGradient))
  }

  /** Every node one table goes with has a buffer attached for that table. */
  ghost predicate PresentFor(b: DataBlock, kind: TableKind) {
    var nodes := NodesFor(b, kind);
    forall i :: 0 <= i < |nodes| ==> nodes[i] in SlotsOf(b, kind)
  }

  /** ... for each active table. */
  ghost predicate Present(b: DataBlock, opt: Options) {
    && PresentFor(b, InputEmbedding) && PresentFor(b, OutputEmbedding)
    && (opt.useAdagrad ==> PresentFor(b, InputGradient) && PresentFor(b, OutputGradient))
  }

  /** ... and each of those buffers holds a row of the embedding size. */
  ghost predicate SizedFor(b: DataBlock, opt: Options, kind: TableKind) {
    var nodes := NodesFor(b, kind);
    && PresentFor(b, kind)
    && forall i :: 0 <= i < |nodes| ==> |SlotsOf(b, kind)[nodes[i]].data| == opt.embeddingSize
  }

  /** ... for each active table. */
  ghost predicate Attached(b: DataBlock, opt: Options) {
    && SizedFor(b, opt, InputEmbedding) && SizedFor(b, opt, OutputEmbedding)
    && (opt.useAdagrad ==> SizedFor(b, opt, InputGradient) && SizedFor(b, opt, OutputGradient))
  }

  /** The handles of the buffers a node map holds for the given nodes. */
  function HandlesOf(slots: map<int, Buffer>, nodes: seq<int>): (hs: seq<Handle>)
    requires forall i :: 0 <= i < |nodes| ==> nodes[i] in slots
    ensures |hs| == |nodes|
    ensures forall i :: 0 <= i < |nodes| ==> hs[i] == slots[nodes[i]].handle
  {
    if |nodes| == 0 then [] else HandlesOf(slots, nodes[..|nodes| - 1]) + [slots[nodes[|nodes| - 1]].handle]
  }

  /** The handles the getter of one table yields for its nodes, in order. */
  function Handles(b: DataBlock, kind: TableKind): seq<Handle>
    requires PresentFor(b, kind)
  {
    HandlesOf(SlotsOf(b, kind), NodesFor(b, kind))
  }

  /** The handles of every buffer attached to the block, table by table in
      the order the source visits the tables. */
  function BlockHandles(b: DataBlock, opt: Options): seq<Handle>
    requires Present(b, opt)
  {
    Handles(b, InputEmbedding) + Handles(b, OutputEmbedding)
      + (if opt.useAdagrad then
           Handles(b, InputGradient) + Handles(b, OutputGradient)
         else [])
  }

  /** Attach one buffer to one node in the map of one table. */
  function Attach(b: DataBlock, kind: TableKind, n: int, buf: Buffer): (r: DataBlock)
    ensures r.inputNodes == b.inputNodes && r.outputNodes == b.outputNodes
    ensures forall k :: k != kind ==> SlotsOf(r, k) == SlotsOf(b, k)
    ensures SlotsOf(r, kind) == SlotsOf(b, kind)[n := buf]
  {
    b.(slots := b.slots[kind := SlotsOf(b, kind)[n := buf]])
  }

  /** `SetDataBlockEmbedding`: the i-th buffer is attached to the i-th node in
      the map of one table, later nodes overwriting earlier ones. Other tables'
      maps and nodes not named keep what they had. */
  function SetDataBlockEmbedding(b: DataBlock, kind: TableKind, nodes: seq<int>, bufs: seq<Buffer>): (r: DataBlock)
    requires |bufs| == |nodes|
    ensures r.inputNodes == b.inputNodes && r.outputNodes == b.outputNodes
    ensures forall k :: k != kind ==> SlotsOf(r, k) == SlotsOf(b, k)
    ensures forall n :: n in SlotsOf(r, kind) <==> n in SlotsOf(b, kind) || n in nodes
    ensures forall n :: n in SlotsOf(b, kind) && n !in nodes ==> SlotsOf(r, kind)[n] == SlotsOf(b, kind)[n]
    decreases |nodes|
  {
    if |nodes| == 0 then b
    else
      var last := |nodes| - 1;
      assert nodes == nodes[..last] + [nodes[last]];
      Attach(SetDataBlockEmbedding(b, kind, nodes[..last], bufs[..last]), kind, nodes[last], bufs[last])
  }

  /** With no node repeated, each named node ends up holding its own buffer. */
  lemma {:induction false} SetDataBlockEmbeddingAttaches(b: DataBlock, kind: TableKind, nodes: seq<int>, bufs: seq<Buffer>)
    requires |bufs| == |nodes|
    ensures var r := SetDataBlockEmbedding(b, kind, nodes, bufs);
      Distinct(nodes) ==> forall i :: 0 <= i < |nodes| ==> nodes[i] in SlotsOf(r, kind) && SlotsOf(r, kind)[nodes[i]] == bufs[i]
    decreases |nodes|
  {
    if |nodes| > 0 && Distinct(nodes) {
      var last := |nodes| - 1;
      assert Distinct(nodes[..last]);
      SetDataBlockEmbeddingAttaches(b, kind, nodes[..last], bufs[..last]);
      var b0 := SetDataBlockEmbedding(b, kind, nodes[..last], bufs[..last]);
      var r := SetDataBlockEmbedding(b, kind, nodes, bufs);
      assert SlotsOf(r, kind) == SlotsOf(b0, kind)[nodes[last] := bufs[last]];
      forall i | 0 <= i < |nodes|
        ensures nodes[i] in SlotsOf(r, kind) && SlotsOf(r, kind)[nodes[i]] == bufs[i]
      {
        if i < last {
          assert nodes[i] == nodes[..last][i] && bufs[i] == bufs[..last][i];
          assert nodes[i] != nodes[last];
        }
      }
    }
  }

  /** `RequestParameterByTableId`: get the rows of one table into the given
      buffers and attach them to the block. With no repeated node, each named
      node's buffer afterwards holds its drawn handle and its current row. */
  function RequestParameterByTableId(t: Table, b: DataBlock, kind: TableKind, nodes: seq<int>, handles: seq<Handle>): (r: DataBlock)
    requires |handles| == |nodes| && Holds(t, nodes)
    ensures r.inputNodes == b.inputNodes && r.outputNodes == b.outputNodes
    ensures forall k :: k != kind ==> SlotsOf(r, k) == SlotsOf(b, k)
    ensures Distinct(nodes) ==>
      forall i :: 0 <= i < |nodes| ==> nodes[i] in SlotsOf(r, kind) && SlotsOf(r, kind)[nodes[i]] == Buffer(handles[i], t[nodes[i]])
  {
    var bufs := GetRows(t, nodes, handles);
    SetDataBlockEmbeddingAttaches(b, kind, nodes, bufs);
    SetDataBlockEmbedding(b, kind, nodes, bufs)
  }

  /** The pool and the block after `RequestParameter` has served one pair of
      tables. */
  datatype Fetched = Fetched(pool: Pool, block: DataBlock)

  /** Draw one buffer per input node and one per output node, then get the
      rows of the input-side table into the first and of the output-side
      table into the second, attaching both to the block
      (src/communicator.cpp:135-141, and 147-151 for the gradient tables). */
  function FetchPair(tables: map<TableKind, Table>, pool: Pool, b: DataBlock, input: TableKind, output: TableKind): (r: Fetched)
    requires Valid(pool) && input != output
    requires input in tables && Holds(tables[input], b.inputNodes)
    requires output in tables && Holds(tables[output], b.outputNodes)
    ensures Valid(r.pool)
    ensures |r.pool.outstanding| == |pool.outstanding| + |b.inputNodes| + |b.outputNodes|
    ensures r.block.inputNodes == b.inputNodes && r.block.outputNodes == b.outputNodes
    ensures forall k :: k != input && k != output ==> SlotsOf(r.block, k) == SlotsOf(b, k)
  {
    var d1 := Acquire(pool, |b.inputNodes|);
    var d2 := Acquire(d1.pool, |b.outputNodes|);
    var b1 := RequestParameterByTableId(tables[input], b, input, b.inputNodes, d1.handles);
    var b2 := RequestParameterByTableId(tables[output], b1, output, b.outputNodes, d2.handles);
    Fetched(d2.pool, b2)
  }

  /** The number of buffers `RequestParameter` draws. */
  function Drawn(opt: Options, b: DataBlock): nat {
    (|b.inputNodes| + |b.outputNodes|) * (if opt.useAdagrad then 2 else 1)
  }

  /** The state and the populated block after `RequestParameter`. */
  datatype Request = Request(state: State, block: DataBlock)

  /** Each active pair's tables hold a row for every node of the block. */
  ghost predicate PairsHeld(tables: map<TableKind, Table>, opt: Options, b: DataBlock) {
    && InputEmbedding in tables && Holds(tables[InputEmbedding], b.inputNodes)
    && OutputEmbedding in tables && Holds(tables[OutputEmbedding], b.outputNodes)
    && (opt.useAdagrad ==>
          && InputGradient in tables && Holds(tables[InputGradient], b.inputNodes)
          && OutputGradient in tables && Holds(tables[OutputGradient], b.outputNodes))
  }

  /** Serve every active pair of tables (src/communicator.cpp:131-153): the
      pool hands out exactly `Drawn` buffers and, without AdaGrad, the
      gradient maps of the block are left alone. */
  function FetchBlock(tables: map<TableKind, Table>, pool: Pool, opt: Options, b: DataBlock): (r: Fetched)
    requires Valid(pool) && PairsHeld(tables, opt, b)
    ensures Valid(r.pool)
    ensures |r.pool.outstanding| == |pool.outstanding| + Drawn(opt, b)
    ensures r.block.inputNodes == b.inputNodes && r.block.outputNodes == b.outputNodes
    ensures !opt.useAdagrad ==>
      SlotsOf(r.block, InputGradient) == SlotsOf(b, InputGradient) && SlotsOf(r.block, OutputGradient) == SlotsOf(b, OutputGradient)
  {
    var f1 := FetchPair(tables, pool, b, InputEmbedding, OutputEmbedding);
    if !opt.useAdagrad then f1
    else FetchPair(tables, f1.pool, f1.block, InputGradient, OutputGradient)
  }

  lemma PairsHeldFrom(s: State, opt: Options, b: DataBlock)
    requires Covers(s, opt, b)
    ensures PairsHeld(s.tables, opt, b)
  {
  }

  /** `RequestParameter`: draw buffers for the embedding tables (and for the
      gradient tables with AdaGrad), fill them with the tables' current rows
      and attach them to the block. No table changes; the pool hands out
      exactly `Drawn` buffers, which are the ones now attached to the block;
      without AdaGrad the gradient maps of the block are left alone. */
  function RequestParameter(s: State, opt: Options, b: DataBlock): (r: Request)
    requires Covers(s, opt, b)
    ensures r.state.tables == s.tables && r.state.wordCount == s.wordCount
    ensures Valid(r.state.pool)
    ensures |r.state.pool.outstanding| == |s.pool.outstanding| + Drawn(opt, b)
    ensures r.block.inputNodes == b.inputNodes && r.block.outputNodes == b.outputNodes
    ensures !opt.useAdagrad ==>
      SlotsOf(r.block, InputGradient) == SlotsOf(b, InputGradient) && SlotsOf(r.block, OutputGradient) == SlotsOf(b, OutputGradient)
  {
    PairsHeldFrom(s, opt, b);
    var f := FetchBlock(s.tables, s.pool, opt, b);
    Request(s.(pool := f.pool), f.block)
  }

  /** One coordinate-wise delta: `(new_row[j] - current[j]) / thread_cnt`. */
  function DeltaRow(newRow: Row, current: Row, threadCnt: nat): (r: Row)
    requires |newRow| == |current| && threadCnt > 0
    ensures |r| == |current|
  {
    seq(|current|, j requires 0 <= j < |current| => (newRow[j] - current[j]) / (threadCnt as real))
  }

  /** The row a table holds after a push: the current row plus the averaged
      delta towards the locally updated row. */
  function Blend(current: Row, newRow: Row, threadCnt: nat): Row
    requires |newRow| == |current| && threadCnt > 0
  {
    RowAdd(current, DeltaRow(newRow, current, threadCnt))
  }

  /** The scratch buffers and the recycle list after `GetDeltaLoop`. */
  datatype Deltas = Deltas(scratch: seq<Buffer>, recycle: seq<Handle>)

  /** `GetDeltaLoop`: for each node in turn, the scratch buffer (which holds
      the row just fetched from the table) is overwritten with the delta
      towards the row the block's getter yields, and that getter buffer is
      pushed onto the recycle list. */
  function GetDeltaLoop(b: DataBlock, kind: TableKind, nodes: seq<int>, scratch: seq<Buffer>, recycle: seq<Handle>, threadCnt: nat): (r: Deltas)
    requires threadCnt > 0 && |scratch| == |nodes|
    requires forall i :: 0 <= i < |nodes| ==>
      nodes[i] in SlotsOf(b, kind) && |SlotsOf(b, kind)[nodes[i]].data| == |scratch[i].data|
    ensures |r.scratch| == |nodes|
    ensures forall i :: 0 <= i < |nodes| ==>
      r.scratch[i] == Buffer(scratch[i].handle, DeltaRow(SlotsOf(b, kind)[nodes[i]].data, scratch[i].data, threadCnt))
    ensures r.recycle == recycle + HandlesOf(SlotsOf(b, kind), nodes)
    decreases |nodes|
  {
    if |nodes| == 0 then Deltas([], recycle)
    else
      var last := |nodes| - 1;
      var d := GetDeltaLoop(b, kind, nodes[..last], scratch[..last], recycle, threadCnt);
      var newRow := SlotsOf(b, kind)[nodes[last]];
      Deltas(d.scratch + [Buffer(scratch[last].handle, DeltaRow(newRow.data, scratch[last].data, threadCnt))],
             d.recycle + [newRow.handle])
  }

  function Contents(bufs: seq<Buffer>): (rows: seq<Row>)
    ensures |rows| == |bufs|
    ensures forall i :: 0 <= i < |bufs| ==> rows[i] == bufs[i].data
  {
    seq(|bufs|, i requires 0 <= i < |bufs| => bufs[i].data)
  }

  /** Each named row of `after` is the blend of its `before` row with the
      block's buffer for it, and every other row is unchanged. */
  ghost predicate PushedRows(before: Table, after: Table, b: DataBlock, kind: TableKind, nodes: seq<int>, threadCnt: nat) {
    && after.Keys == before.Keys
    && (forall n :: n in before && n !in nodes ==> after[n] == before[n])
    && forall i :: 0 <= i < |nodes| ==>
         && nodes[i] in before && nodes[i] in SlotsOf(b, kind) && threadCnt > 0
         && |SlotsOf(b, kind)[nodes[i]].data| == |before[nodes[i]]|
         && after[nodes[i]] == Blend(before[nodes[i]], SlotsOf(b, kind)[nodes[i]].data, threadCnt)
  }

  /** The table and the recycle list after `AddParameterByTableId`. */
  datatype Pushed = Pushed(table: Table, recycle: seq<Handle>)

  /** `AddParameterByTableId`: re-get the current rows of the table `kind`
      names into the scratch buffers, turn them into deltas with
      `GetDeltaLoop`, and add the deltas to that table. The baseline is the
      row fetched here, not the one `RequestParameter` fetched. The table
      keeps its rows and their sizes; each node pushes its getter buffer onto
      the recycle list once. */
  function AddParameterByTableId(t: Table, b: DataBlock, kind: TableKind, nodes: seq<int>,
                                 handles: seq<Handle>, recycle: seq<Handle>, threadCnt: nat): (r: Pushed)
    requires threadCnt > 0 && |handles| == |nodes| && Holds(t, nodes)
    requires forall i :: 0 <= i < |nodes| ==>
      nodes[i] in SlotsOf(b, kind) && |SlotsOf(b, kind)[nodes[i]].data| == |t[nodes[i]]|
    ensures r.table.Keys == t.Keys
    ensures forall n :: n in t ==> |r.table[n]| == |t[n]|
    ensures forall n :: n in t && n !in nodes ==> r.table[n] == t[n]
    ensures r.recycle == recycle + HandlesOf(SlotsOf(b, kind), nodes)
  {
    var fetched := GetRows(t, nodes, handles);
    var d := GetDeltaLoop(b, kind, nodes, fetched, recycle, threadCnt);
    var deltas := Contents(d.scratch);
    forall i | 0 <= i < |nodes|
      ensures |deltas[i]| == |t[nodes[i]]|
    {
      assert deltas[i] == DeltaRow(SlotsOf(b, kind)[nodes[i]].data, fetched[i].data, threadCnt);
    }
    AddRowsUnnamed(t, nodes, deltas);
    Pushed(AddRows(t, nodes, deltas), d.recycle)
  }

  /** The tables, pool and recycle list after one pair of tables is pushed. */
  datatype Push = Push(tables: map<TableKind, Table>, pool: Pool, recycle: seq<Handle>)

  /** The block's buffers for the input-side and output-side tables fit
      those tables' rows. */
  ghost predicate PairAttached(tables: map<TableKind, Table>, b: DataBlock, input: TableKind, output: TableKind) {
    && input in tables && Holds(tables[input], b.inputNodes)
    && output in tables && Holds(tables[output], b.outputNodes)
    && (forall i :: 0 <= i < |b.inputNodes| ==>
          b.inputNodes[i] in SlotsOf(b, input)
          && |SlotsOf(b, input)[b.inputNodes[i]].data| == |tables[input][b.inputNodes[i]]|)
    && (forall i :: 0 <= i < |b.outputNodes| ==>
          b.outputNodes[i] in SlotsOf(b, output)
          && |SlotsOf(b, output)[b.outputNodes[i]].data| == |tables[output][b.outputNodes[i]]|)
  }

  /** The tables and the recycle list after one pair of tables is pushed. */
  datatype PairPushed = PairPushed(tables: map<TableKind, Table>, recycle: seq<Handle>)

  /** Push the deltas of the input-side table and then of the output-side
      table, with `scratchIn` and `scratchOut` as the scratch buffers. Only
      those two tables change; the recycle list grows by the getter buffers of
      both tables, one per node. */
  function PushTables(tables: map<TableKind, Table>, b: DataBlock, input: TableKind, output: TableKind,
                      scratchIn: seq<Handle>, scratchOut: seq<Handle>, recycle: seq<Handle>, threadCnt: nat): (r: PairPushed)
    requires threadCnt > 0 && input != output
    requires |scratchIn| == |b.inputNodes| && |scratchOut| == |b.outputNodes|
    requires PairAttached(tables, b, input, output)
    ensures r.recycle == recycle + HandlesOf(SlotsOf(b, input), b.inputNodes) + HandlesOf(SlotsOf(b, output), b.outputNodes)
    ensures r.tables.Keys == tables.Keys
    ensures AgreeExcept(tables, r.tables, input, output)
  {
    var a1 := AddParameterByTableId(tables[input], b, input, b.inputNodes, scratchIn, recycle, threadCnt);
    var a2 := AddParameterByTableId(tables[output], b, output, b.outputNodes, scratchOut, a1.recycle, threadCnt);
    UpdateTwice(tables, input, a1.table, output, a2.table);
    PairPushed(tables[input := a1.table][output := a2.table], a2.recycle)
  }

  /** Draw scratch buffers for the input and output nodes, push the pair of
      tables, and return the scratch buffers (src/communicator.cpp:231-240,
      and 245-252 for the gradient tables). The pool ends where it
      started. */
  function PushPair(tables: map<TableKind, Table>, pool: Pool, b: DataBlock, input: TableKind, output: TableKind,
                    recycle: seq<Handle>, threadCnt: nat): (r: Push)
    requires Valid(pool) && threadCnt > 0 && input != output
    requires PairAttached(tables, b, input, output)
    ensures Valid(r.pool) && r.pool.outstanding == pool.outstanding
    ensures r.recycle == recycle + HandlesOf(SlotsOf(b, input), b.inputNodes) + HandlesOf(SlotsOf(b, output), b.outputNodes)
    ensures r.tables.Keys == tables.Keys
    ensures AgreeExcept(tables, r.tables, input, output)
  {
    var d1 := Acquire(pool, |b.inputNodes|);
    var d2 := Acquire(d1.pool, |b.outputNodes|);
    var q := PushTables(tables, b, input, output, d1.handles, d2.handles, recycle, threadCnt);
    AcquireTwiceReleaseTwice(pool, |b.inputNodes|, |b.outputNodes|);
    Push(q.tables, Release(Release(d2.pool, d1.handles), d2.handles), q.recycle)
  }

  /** Every entry of `m1` other than those of `a` and `c` is also in `m2`,
      unchanged. */
  ghost predicate AgreeExcept<K, V>(m1: map<K, V>, m2: map<K, V>, a: K, c: K) {
    forall k :: k in m1 && k != a && k != c ==> k in m2 && m2[k] == m1[k]
  }

  lemma AgreeAt<K, V>(m1: map<K, V>, m2: map<K, V>, a: K, c: K, k: K)
    requires AgreeExcept(m1, m2, a, c) && k in m1 && k != a && k != c
    ensures k in m2 && m2[k] == m1[k]
  {
  }

  /** Replacing two present entries of a map keeps its keys and its other
      entries. */
  lemma UpdateTwice<K, V>(m: map<K, V>, a: K, va: V, c: K, vc: V)
    requires a in m && c in m
    ensures m[a := va][c := vc].Keys == m.Keys
    ensures AgreeExcept(m, m[a := va][c := vc], a, c)
  {
  }

  /** The requirements of `AddDeltaParameter` on a non-null block: the
      tables fit it, its buffers are sized rows, and those buffers are out
      with the caller, since they go back to the pool. */
  ghost predicate PushReady(s: State, opt: Options, b: DataBlock) {
    && Covers(s, opt, b) && Attached(b, opt) && opt.threadCnt > 0
    && Present(b, opt) && multiset(BlockHandles(b, opt)) <= s.pool.outstanding
  }

  lemma PairAttachedFrom(s: State, opt: Options, b: DataBlock, input: TableKind, output: TableKind)
    requires TableFits(s, opt, b, input) && SizedFor(b, opt, input)
    requires TableFits(s, opt, b, output) && SizedFor(b, opt, output)
    requires NodesFor(b, input) == b.inputNodes && NodesFor(b, output) == b.outputNodes
    ensures PairAttached(s.tables, b, input, output)
  {
    forall i | 0 <= i < |b.inputNodes|
      ensures |SlotsOf(b, input)[b.inputNodes[i]].data| == |s.tables[input][b.inputNodes[i]]|
    {
      assert NodesFor(b, input)[i] == b.inputNodes[i];
    }
    forall i | 0 <= i < |b.outputNodes|
      ensures |SlotsOf(b, output)[b.outputNodes[i]].data| == |s.tables[output][b.outputNodes[i]]|
    {
      assert NodesFor(b, output)[i] == b.outputNodes[i];
    }
  }

  /** Pushing one pair of tables leaves another pair's tables, and so their
      fit with the block, as they were. */
  lemma PairAttachedFrame(t1: map<TableKind, Table>, t2: map<TableKind, Table>, b: DataBlock, input: TableKind, output: TableKind)
    requires PairAttached(t1, b, input, output)
    requires input in t2 && output in t2 && t2[input] == t1[input] && t2[output] == t1[output]
    ensures PairAttached(t2, b, input, output)
  {
  }

  /** Both pairs' getter handles, visited in the source's order, are the
      block's handles. */
  lemma RecycleIsBlockHandles(b: DataBlock, opt: Options, r1: seq<Handle>, r2: seq<Handle>)
    requires Present(b, opt)
    requires r1 == Handles(b, InputEmbedding) + Handles(b, OutputEmbedding)
    requires opt.useAdagrad ==> r2 == r1 + Handles(b, InputGradient) + Handles(b, OutputGradient)
    ensures (if opt.useAdagrad then r2 else r1) == BlockHandles(b, opt)
  {
  }

  /** A pair's buffers are present, and the getters yield their handles in
      node order. */
  lemma PairHandles(tables: map<TableKind, Table>, b: DataBlock, input: TableKind, output: TableKind)
    requires PairAttached(tables, b, input, output)
    requires NodesFor(b, input) == b.inputNodes && NodesFor(b, output) == b.outputNodes
    ensures PresentFor(b, input) && PresentFor(b, output)
    ensures Handles(b, input) == HandlesOf(SlotsOf(b, input), b.inputNodes)
    ensures Handles(b, output) == HandlesOf(SlotsOf(b, output), b.outputNodes)
  {
  }

  /** The embedding pair of a push (src/communicator.cpp:231-240). */
  function PushEmbeddings(s: State, opt: Options, b: DataBlock): (p: Push)
    requires Valid(s.pool) && opt.threadCnt > 0
    requires PairAttached(s.tables, b, InputEmbedding, OutputEmbedding)
    ensures Valid(p.pool) && p.pool.outstanding == s.pool.outstanding
    ensures PresentFor(b, InputEmbedding) && PresentFor(b, OutputEmbedding)
    ensures p.recycle == Handles(b, InputEmbedding) + Handles(b, OutputEmbedding)
    ensures p.tables.Keys == s.tables.Keys
    ensures AgreeExcept(s.tables, p.tables, InputEmbedding, OutputEmbedding)
  {
    PairHandles(s.tables, b, InputEmbedding, OutputEmbedding);
    var p := PushPair(s.tables, s.pool, b, InputEmbedding, OutputEmbedding, [], opt.threadCnt);
    EmptyConcat(Handles(b, InputEmbedding));
    p
  }

  /** The gradient pair of a push, after the embedding pair
      (src/communicator.cpp:243-252). */
  function PushGradients(opt: Options, b: DataBlock, p1: Push): (p: Push)
    requires Valid(p1.pool) && opt.threadCnt > 0
    requires PairAttached(p1.tables, b, InputGradient, OutputGradient)
    ensures Valid(p.pool) && p.pool.outstanding == p1.pool.outstanding
    ensures PresentFor(b, InputGradient) && PresentFor(b, OutputGradient)
    ensures p.recycle == p1.recycle + Handles(b, InputGradient) + Handles(b, OutputGradient)
    ensures p.tables.Keys == p1.tables.Keys
    ensures AgreeExcept(p1.tables, p.tables, InputGradient, OutputGradient)
  {
    PairHandles(p1.tables, b, InputGradient, OutputGradient);
    var p := PushPair(p1.tables, p1.pool, b, InputGradient, OutputGradient, p1.recycle, opt.threadCnt);
    p
  }

  /** The tables of each active pair fit the block's buffers for them. */
  ghost predicate PairsAttached(s: State, opt: Options, b: DataBlock) {
    && PairAttached(s.tables, b, InputEmbedding, OutputEmbedding)
    && (opt.useAdagrad ==> PairAttached(s.tables, b, InputGradient, OutputGradient))
  }

  lemma PairsAttachedFrom(s: State, opt: Options, b: DataBlock)
    requires Covers(s, opt, b) && Attached(b, opt)
    ensures PairsAttached(s, opt, b)
  {
    PairAttachedFrom(s, opt, b, InputEmbedding, OutputEmbedding);
    if opt.useAdagrad {
      PairAttachedFrom(s, opt, b, InputGradient, OutputGradient);
    }
  }

  /** Push every active pair of tables and return all recycled getter
      buffers (src/communicator.cpp:229-256), which must be out with the
      block. Only active tables change and the word counter is untouched;
      the pool loses exactly the buffers the block's getters yield. */
  function PushBlock(s: State, opt: Options, b: DataBlock): (r: State)
    requires Valid(s.pool) && opt.threadCnt > 0 && PairsAttached(s, opt, b)
    requires Present(b, opt) && multiset(BlockHandles(b, opt)) <= s.pool.outstanding
    ensures r.wordCount == s.wordCount
    ensures r.tables.Keys == s.tables.Keys
    ensures !opt.useAdagrad ==>
      AgreeExcept(s.tables, r.tables, InputEmbedding, OutputEmbedding)
    ensures Valid(r.pool) && r.pool.outstanding + multiset(BlockHandles(b, opt)) == s.pool.outstanding
  {
    var p1 := PushEmbeddings(s, opt, b);
    if !opt.useAdagrad then
      RecycleIsBlockHandles(b, opt, p1.recycle, p1.recycle);
      State(p1.tables, s.wordCount, Release(p1.pool, p1.recycle))
    else
      AgreeAt(s.tables, p1.tables, InputEmbedding, OutputEmbedding, InputGradient);
      AgreeAt(s.tables, p1.tables, InputEmbedding, OutputEmbedding, OutputGradient);
      PairAttachedFrame(s.tables, p1.tables, b, InputGradient, OutputGradient);
      var p2 := PushGradients(opt, b, p1);
      RecycleIsBlockHandles(b, opt, p1.recycle, p2.recycle);
      State(p2.tables, s.wordCount, Release(p2.pool, p2.recycle))
  }

  /** `AddDeltaParameter`: a null block changes nothing; otherwise the block
      is pushed. */
  function AddDeltaParameter(s: State, opt: Options, block: Option<DataBlock>): (r: State)
    requires block.Some? ==> PushReady(s, opt, block.value)
    ensures block.None? ==> r == s
    ensures r.wordCount == s.wordCount
    ensures r.tables.Keys == s.tables.Keys
    ensures !opt.useAdagrad ==>
      AgreeExcept(s.tables, r.tables, InputEmbedding, OutputEmbedding)
    ensures block.Some? ==>
      Valid(r.pool) && r.pool.outstanding + multiset(BlockHandles(block.value, opt)) == s.pool.outstanding
  {
    match block
    case None => s
    case Some(b) =>
      PairsAttachedFrom(s, opt, b);
      PushBlock(s, opt, b)
  }

  /** `AddWordCount`: add to the global processed-word counter. */
  function AddWordCount(s: State, n: int): (r: State)
    ensures GetWordCount(r) == GetWordCount(s) + n
    ensures r.tables == s.tables && r.pool == s.pool
  {
    s.(wordCount := s.wordCount + n)
  }

  /** `GetWordCount`: the value of the global processed-word counter. */
  function GetWordCount(s: State): (count: int)
    ensures count == s.wordCount
  {
    s.wordCount
  }
}
