/** Laws of the Communicator that relate several operations: what
    `RequestParameter` leaves in the block, what `AddDeltaParameter` writes
    to the tables, the fetch-then-push conservation of the pool, and the
    arithmetic of the averaged delta. */
module CommunicatorLemmas {
  import opened Wrappers
  import opened Seqs
  import opened BufferPool
  import opened ParamTables
  import opened Communicator

  /** Each node one table goes with has a buffer in the block holding that
      table's row for the node. */
  ghost predicate Loaded(tables: map<TableKind, Table>, b: DataBlock, kind: TableKind)
    requires kind in tables
  {
    var nodes := NodesFor(b, kind);
    forall i :: 0 <= i < |nodes| ==>
      && nodes[i] in SlotsOf(b, kind)
      && nodes[i] in tables[kind]
      && SlotsOf(b, kind)[nodes[i]].data == tables[kind][nodes[i]]
  }

  /** What `RequestParameterByTableId` leaves for its table: with no node
      repeated, each node's buffer holds the table's row and the handle
      given for it. */
  lemma FetchTableLoads(tables: map<TableKind, Table>, b: DataBlock, kind: TableKind, handles: seq<Handle>)
    requires kind in tables && Distinct(NodesFor(b, kind))
    requires |handles| == |NodesFor(b, kind)| && Holds(tables[kind], NodesFor(b, kind))
    ensures var r := RequestParameterByTableId(tables[kind], b, kind, NodesFor(b, kind), handles);
      && NodesFor(r, kind) == NodesFor(b, kind)
      && Loaded(tables, r, kind)
      && PresentFor(r, kind)
      && Handles(r, kind) == handles
  {
    var r := RequestParameterByTableId(tables[kind], b, kind, NodesFor(b, kind), handles);
    assert r.inputNodes == b.inputNodes && r.outputNodes == b.outputNodes;
  }

  /** What one `FetchPair` leaves in the block: with no node repeated,
      each node's buffer holds the table's row. */
  lemma FetchPairLoads(tables: map<TableKind, Table>, pool: Pool, b: DataBlock, input: TableKind, output: TableKind)
    requires Valid(pool) && input != output && WellFormed(b)
    requires NodesFor(b, input) == b.inputNodes && NodesFor(b, output) == b.outputNodes
    requires input in tables && Holds(tables[input], b.inputNodes)
    requires output in tables && Holds(tables[output], b.outputNodes)
    ensures var f := FetchPair(tables, pool, b, input, output);
      && Loaded(tables, f.block, input) && Loaded(tables, f.block, output)
  {
    var d1 := Acquire(pool, |b.inputNodes|);
    var d2 := Acquire(d1.pool, |b.outputNodes|);
    PairLoadsRows(tables, b, input, output, d1.handles, d2.handles);
  }

  /** Getting a pair of tables into two runs of buffers leaves both tables'
      rows in the block. */
  lemma PairLoadsRows(tables: map<TableKind, Table>, b: DataBlock, input: TableKind, output: TableKind,
                      h1: seq<Handle>, h2: seq<Handle>)
    requires input != output && WellFormed(b)
    requires NodesFor(b, input) == b.inputNodes && NodesFor(b, output) == b.outputNodes
    requires input in tables && Holds(tables[input], b.inputNodes) && |h1| == |b.inputNodes|
    requires output in tables && Holds(tables[output], b.outputNodes) && |h2| == |b.outputNodes|
    ensures var b1 := RequestParameterByTableId(tables[input], b, input, b.inputNodes, h1);
      var b2 := RequestParameterByTableId(tables[output], b1, output, b.outputNodes, h2);
      Loaded(tables, b2, input) && Loaded(tables, b2, output)
  {
    var b1 := RequestParameterByTableId(tables[input], b, input, b.inputNodes, h1);
    FetchTableLoads(tables, b, input, h1);
    assert NodesFor(b1, output) == b.outputNodes;
    var b2 := RequestParameterByTableId(tables[output], b1, output, b.outputNodes, h2);
    FetchTableLoads(tables, b1, output, h2);
    LoadedFrame(tables, b1, b2, input);
  }

  /** ... and the handles that went out of the pool are the ones now
      attached. */
  lemma FetchPairDraws(tables: map<TableKind, Table>, pool: Pool, b: DataBlock, input: TableKind, output: TableKind)
    requires Valid(pool) && input != output && WellFormed(b)
    requires NodesFor(b, input) == b.inputNodes && NodesFor(b, output) == b.outputNodes
    requires input in tables && Holds(tables[input], b.inputNodes)
    requires output in tables && Holds(tables[output], b.outputNodes)
    ensures var f := FetchPair(tables, pool, b, input, output);
      && PresentFor(f.block, input) && PresentFor(f.block, output)
      && f.pool.outstanding == pool.outstanding + multiset(Handles(f.block, input)) + multiset(Handles(f.block, output))
  {
    var d1 := Acquire(pool, |b.inputNodes|);
    var d2 := Acquire(d1.pool, |b.outputNodes|);
    PairAttachesHandles(tables, b, input, output, d1.handles, d2.handles);
  }

  /** Getting a pair of tables into two runs of buffers attaches the first
      run to the input side and the second to the output side, node by
      node in order. */
  lemma PairAttachesHandles(tables: map<TableKind, Table>, b: DataBlock, input: TableKind, output: TableKind,
                            h1: seq<Handle>, h2: seq<Handle>)
    requires input != output && WellFormed(b)
    requires NodesFor(b, input) == b.inputNodes && NodesFor(b, output) == b.outputNodes
    requires input in tables && Holds(tables[input], b.inputNodes) && |h1| == |b.inputNodes|
    requires output in tables && Holds(tables[output], b.outputNodes) && |h2| == |b.outputNodes|
    ensures var b1 := RequestParameterByTableId(tables[input], b, input, b.inputNodes, h1);
      var b2 := RequestParameterByTableId(tables[output], b1, output, b.outputNodes, h2);
      && PresentFor(b2, input) && Handles(b2, input) == h1
      && PresentFor(b2, output) && Handles(b2, output) == h2
  {
    var b1 := RequestParameterByTableId(tables[input], b, input, b.inputNodes, h1);
    var b2 := RequestParameterByTableId(tables[output], b1, output, b.outputNodes, h2);
    assert PresentFor(b2, input) && Handles(b2, input) == h1 by {
      FetchTableLoads(tables, b, input, h1);
      assert NodesFor(b2, input) == NodesFor(b1, input);
      assert SlotsOf(b2, input) == SlotsOf(b1, input);
    }
    assert NodesFor(b1, output) == b.outputNodes;
    FetchTableLoads(tables, b1, output, h2);
  }

  /** Rewriting another table's buffers leaves one table's loaded rows. */
  lemma LoadedFrame(tables: map<TableKind, Table>, b1: DataBlock, b2: DataBlock, kind: TableKind)
    requires kind in tables && Loaded(tables, b1, kind)
    requires NodesFor(b2, kind) == NodesFor(b1, kind) && SlotsOf(b2, kind) == SlotsOf(b1, kind)
    ensures Loaded(tables, b2, kind)
  {
  }

  /** A pair fetched later leaves an earlier pair's buffers alone. */
  lemma FetchPairKeeps(tables: map<TableKind, Table>, pool: Pool, b: DataBlock, input: TableKind, output: TableKind, kind: TableKind)
    requires Valid(pool) && input != output
    requires input in tables && Holds(tables[input], b.inputNodes)
    requires output in tables && Holds(tables[output], b.outputNodes)
    requires kind != input && kind != output && kind in tables && Loaded(tables, b, kind)
    ensures Loaded(tables, FetchPair(tables, pool, b, input, output).block, kind)
  {
    var f := FetchPair(tables, pool, b, input, output);
    assert NodesFor(f.block, kind) == NodesFor(b, kind);
    assert SlotsOf(f.block, kind) == SlotsOf(b, kind);
  }

  /** After `FetchBlock` every active table's buffers hold the rows the
      tables held. */
  lemma FetchBlockLoads(tables: map<TableKind, Table>, pool: Pool, opt: Options, b: DataBlock)
    requires Valid(pool) && PairsHeld(tables, opt, b) && WellFormed(b)
    ensures var f := FetchBlock(tables, pool, opt, b);
      && Loaded(tables, f.block, InputEmbedding) && Loaded(tables, f.block, OutputEmbedding)
      && (opt.useAdagrad ==> Loaded(tables, f.block, InputGradient) && Loaded(tables, f.block, OutputGradient))
  {
    FetchPairLoads(tables, pool, b, InputEmbedding, OutputEmbedding);
    var f1 := FetchPair(tables, pool, b, InputEmbedding, OutputEmbedding);
    if opt.useAdagrad {
      assert Holds(tables[InputGradient], f1.block.inputNodes);
      assert Holds(tables[OutputGradient], f1.block.outputNodes);
      FetchPairKeeps(tables, f1.pool, f1.block, InputGradient, OutputGradient, InputEmbedding);
      FetchPairKeeps(tables, f1.pool, f1.block, InputGradient, OutputGradient, OutputEmbedding);
      FetchPairLoads(tables, f1.pool, f1.block, InputGradient, OutputGradient);
    }
  }

  /** After `RequestParameter` every active table's buffers hold the rows
      the tables held (src/communicator.cpp:79-123, 140-151). */
  lemma RequestParameterFetchesRows(s: State, opt: Options, b: DataBlock)
    requires Covers(s, opt, b) && WellFormed(b)
    ensures var r := RequestParameter(s, opt, b);
      && Loaded(s.tables, r.block, InputEmbedding) && Loaded(s.tables, r.block, OutputEmbedding)
      && (opt.useAdagrad ==> Loaded(s.tables, r.block, InputGradient) && Loaded(s.tables, r.block, OutputGradient))
  {
    PairsHeldFrom(s, opt, b);
    FetchBlockLoads(s.tables, s.pool, opt, b);
  }

  /** Rows loaded from a shaped table have the embedding size. */
  lemma LoadedSized(s: State, opt: Options, b: DataBlock, kind: TableKind)
    requires TableFits(s, opt, b, kind) && Loaded(s.tables, b, kind)
    ensures SizedFor(b, opt, kind)
  {
    var nodes := NodesFor(b, kind);
    forall i | 0 <= i < |nodes|
      ensures |SlotsOf(b, kind)[nodes[i]].data| == opt.embeddingSize
    {
      assert nodes[i] in s.tables[kind] && SlotsOf(b, kind)[nodes[i]].data == s.tables[kind][nodes[i]];
      var t, n := s.tables[kind], nodes[i];
      assert Shaped(t, opt.embeddingSize) && n in t;
      assert |t[n]| == opt.embeddingSize;
    }
  }

  /** Handing out two runs of handles one after the other puts out the
      handles of their concatenation. */
  lemma DrawnTwo(o: multiset<Handle>, out: multiset<Handle>, a: seq<Handle>, b: seq<Handle>, all: seq<Handle>)
    requires out == o + multiset(a) + multiset(b) && all == a + b
    ensures out == o + multiset(all)
  {
  }

  /** ... and likewise for four runs. */
  lemma DrawnFour(o: multiset<Handle>, out: multiset<Handle>, a: seq<Handle>, b: seq<Handle>, c: seq<Handle>, d: seq<Handle>,
                  all: seq<Handle>)
    requires out == o + multiset(a) + multiset(b) + multiset(c) + multiset(d) && all == a + b + (c + d)
    ensures out == o + multiset(all)
  {
  }

  /** A pair fetched later leaves an earlier pair's handles alone. */
  lemma FetchPairKeepsHandles(tables: map<TableKind, Table>, pool: Pool, b: DataBlock, input: TableKind, output: TableKind, kind: TableKind)
    requires Valid(pool) && input != output
    requires input in tables && Holds(tables[input], b.inputNodes)
    requires output in tables && Holds(tables[output], b.outputNodes)
    requires kind != input && kind != output && PresentFor(b, kind)
    ensures var f := FetchPair(tables, pool, b, input, output);
      PresentFor(f.block, kind) && Handles(f.block, kind) == Handles(b, kind)
  {
    var f := FetchPair(tables, pool, b, input, output);
    assert NodesFor(f.block, kind) == NodesFor(b, kind);
    assert SlotsOf(f.block, kind) == SlotsOf(b, kind);
  }

  /** After `RequestParameter` each attached buffer holds a row of the
      embedding size (src/communicator.cpp:79-123, 140-151). */
  lemma {:induction false} RequestParameterAttaches(s: State, opt: Options, b: DataBlock)
    requires Covers(s, opt, b) && WellFormed(b)
    ensures Attached(RequestParameter(s, opt, b).block, opt)
  {
    var r := RequestParameter(s, opt, b);
    RequestParameterFetchesRows(s, opt, b);
    LoadedSized(s, opt, r.block, InputEmbedding);
    LoadedSized(s, opt, r.block, OutputEmbedding);
    if opt.useAdagrad {
      LoadedSized(s, opt, r.block, InputGradient);
      LoadedSized(s, opt, r.block, OutputGradient);
    }
  }

  /** Without AdaGrad the block's handles are those of the embedding
      tables. */
  lemma EmbeddingHandles(b: DataBlock, opt: Options)
    requires !opt.useAdagrad && PresentFor(b, InputEmbedding) && PresentFor(b, OutputEmbedding)
    ensures Present(b, opt)
    ensures BlockHandles(b, opt) == Handles(b, InputEmbedding) + Handles(b, OutputEmbedding)
  {
    ConcatEmpty(Handles(b, InputEmbedding) + Handles(b, OutputEmbedding));
  }

  /** With AdaGrad the block's handles are those of all four tables. */
  lemma AdagradHandles(b: DataBlock, opt: Options)
    requires opt.useAdagrad && Present(b, opt)
    ensures BlockHandles(b, opt)
      == Handles(b, InputEmbedding) + Handles(b, OutputEmbedding) + (Handles(b, InputGradient) + Handles(b, OutputGradient))
  {
  }

  /** The buffers `FetchBlock` draws are exactly the ones it attaches:
      without AdaGrad, ... */
  lemma FetchBlockDrawsPlain(tables: map<TableKind, Table>, pool: Pool, opt: Options, b: DataBlock)
    requires Valid(pool) && PairsHeld(tables, opt, b) && WellFormed(b) && !opt.useAdagrad
    ensures var f := FetchBlock(tables, pool, opt, b);
      && Present(f.block, opt)
      && f.pool.outstanding == pool.outstanding + multiset(BlockHandles(f.block, opt))
  {
    var f := FetchPair(tables, pool, b, InputEmbedding, OutputEmbedding);
    assert FetchBlock(tables, pool, opt, b) == f;
    FetchPairDraws(tables, pool, b, InputEmbedding, OutputEmbedding);
    EmbeddingHandles(f.block, opt);
    DrawnTwo(pool.outstanding, f.pool.outstanding, Handles(f.block, InputEmbedding), Handles(f.block, OutputEmbedding),
             BlockHandles(f.block, opt));
  }

  /** The gradient pair, fetched after the embedding pair, draws its own
      buffers and leaves the embedding handles as they were. */
  lemma GradientPairDraws(tables: map<TableKind, Table>, f1: Fetched, opt: Options)
    requires Valid(f1.pool) && WellFormed(f1.block) && opt.useAdagrad
    requires InputGradient in tables && Holds(tables[InputGradient], f1.block.inputNodes)
    requires OutputGradient in tables && Holds(tables[OutputGradient], f1.block.outputNodes)
    requires PresentFor(f1.block, InputEmbedding) && PresentFor(f1.block, OutputEmbedding)
    ensures var f2 := FetchPair(tables, f1.pool, f1.block, InputGradient, OutputGradient);
      && Present(f2.block, opt)
      && BlockHandles(f2.block, opt)
         == Handles(f1.block, InputEmbedding) + Handles(f1.block, OutputEmbedding)
            + (Handles(f2.block, InputGradient) + Handles(f2.block, OutputGradient))
      && f2.pool.outstanding
         == f1.pool.outstanding + multiset(Handles(f2.block, InputGradient)) + multiset(Handles(f2.block, OutputGradient))
  {
    var f2 := FetchPair(tables, f1.pool, f1.block, InputGradient, OutputGradient);
    FetchPairDraws(tables, f1.pool, f1.block, InputGradient, OutputGradient);
    FetchPairKeepsHandles(tables, f1.pool, f1.block, InputGradient, OutputGradient, InputEmbedding);
    FetchPairKeepsHandles(tables, f1.pool, f1.block, InputGradient, OutputGradient, OutputEmbedding);
    AdagradHandles(f2.block, opt);
  }

  /** ... and with AdaGrad. */
  lemma FetchBlockDrawsAdagrad(tables: map<TableKind, Table>, pool: Pool, opt: Options, b: DataBlock)
    requires Valid(pool) && PairsHeld(tables, opt, b) && WellFormed(b) && opt.useAdagrad
    ensures var f := FetchBlock(tables, pool, opt, b);
      && Present(f.block, opt)
      && f.pool.outstanding == pool.outstanding + multiset(BlockHandles(f.block, opt))
  {
    var f1 := FetchPair(tables, pool, b, InputEmbedding, OutputEmbedding);
    FetchPairDraws(tables, pool, b, InputEmbedding, OutputEmbedding);
    assert WellFormed(f1.block);
    GradientPairDraws(tables, f1, opt);
    var f2 := FetchPair(tables, f1.pool, f1.block, InputGradient, OutputGradient);
    assert FetchBlock(tables, pool, opt, b) == f2;
    DrawnFour(pool.outstanding, f2.pool.outstanding, Handles(f1.block, InputEmbedding), Handles(f1.block, OutputEmbedding),
              Handles(f2.block, InputGradient), Handles(f2.block, OutputGradient), BlockHandles(f2.block, opt));
  }

  /** The buffers `RequestParameter` draws are exactly the ones it attaches:
      the pool's outstanding handles grow by the block's handles
      (src/communicator.cpp:135-152). */
  lemma RequestParameterDraws(s: State, opt: Options, b: DataBlock)
    requires Covers(s, opt, b) && WellFormed(b)
    ensures var r := RequestParameter(s, opt, b);
      && Present(r.block, opt)
      && r.state.pool.outstanding == s.pool.outstanding + multiset(BlockHandles(r.block, opt))
  {
    PairsHeldFrom(s, opt, b);
    if opt.useAdagrad {
      FetchBlockDrawsAdagrad(s.tables, s.pool, opt, b);
    } else {
      FetchBlockDrawsPlain(s.tables, s.pool, opt, b);
    }
  }

  /** The local trainer rewrites the rows in the block's buffers but keeps the
      buffers: same nodes, and for one table the same handle on every node. */
  ghost predicate KeepsBuffers(b: DataBlock, trained: DataBlock, kind: TableKind) {
    var nodes := NodesFor(b, kind);
    && NodesFor(trained, kind) == nodes
    && PresentFor(b, kind) && PresentFor(trained, kind)
    && forall i :: 0 <= i < |nodes| ==> SlotsOf(trained, kind)[nodes[i]].handle == SlotsOf(b, kind)[nodes[i]].handle
  }

  /** ... for every active table, with rows still of the embedding size. */
  ghost predicate Retrained(b: DataBlock, trained: DataBlock, opt: Options) {
    && trained.inputNodes == b.inputNodes && trained.outputNodes == b.outputNodes
    && KeepsBuffers(b, trained, InputEmbedding) && KeepsBuffers(b, trained, OutputEmbedding)
    && (opt.useAdagrad ==> KeepsBuffers(b, trained, InputGradient) && KeepsBuffers(b, trained, OutputGradient))
    && Attached(trained, opt)
  }

  lemma KeptHandles(b: DataBlock, trained: DataBlock, kind: TableKind)
    requires KeepsBuffers(b, trained, kind)
    ensures Handles(trained, kind) == Handles(b, kind)
  {
  }

  lemma {:induction false} RetrainedBlockHandles(b: DataBlock, trained: DataBlock, opt: Options)
    requires Present(b, opt) && Retrained(b, trained, opt)
    ensures BlockHandles(trained, opt) == BlockHandles(b, opt)
  {
    KeptHandles(b, trained, InputEmbedding);
    KeptHandles(b, trained, OutputEmbedding);
    if opt.useAdagrad {
      KeptHandles(b, trained, InputGradient);
      KeptHandles(b, trained, OutputGradient);
    }
  }

  /** The tables still fit a block with the same nodes over a consistent
      pool. */
  lemma CoversAgain(s: State, opt: Options, b: DataBlock, s2: State, b2: DataBlock)
    requires Covers(s, opt, b)
    requires s2.tables == s.tables && Valid(s2.pool)
    requires b2.inputNodes == b.inputNodes && b2.outputNodes == b.outputNodes
    ensures Covers(s2, opt, b2)
  {
    assert NodesFor(b2, InputEmbedding) == NodesFor(b, InputEmbedding);
    assert NodesFor(b2, OutputEmbedding) == NodesFor(b, OutputEmbedding);
    assert NodesFor(b2, InputGradient) == NodesFor(b, InputGradient);
    assert NodesFor(b2, OutputGradient) == NodesFor(b, OutputGradient);
  }

  lemma ReturnWhatWasDrawn(o: multiset<Handle>, h: multiset<Handle>, q: multiset<Handle>)
    requires q + h == o + h
    ensures q == o
  {
    assert q == (q + h) - h;
  }

  /** Conservation: fetch the rows of a block, train it locally without
      swapping its buffers, push the deltas back — the pool has exactly the
      handles out that it had before (src/communicator.cpp:125-156, 215-257). */
  lemma {:induction false} RequestThenAddConserves(s: State, opt: Options, b: DataBlock, trained: DataBlock)
    requires Covers(s, opt, b) && WellFormed(b) && opt.threadCnt > 0
    requires Retrained(RequestParameter(s, opt, b).block, trained, opt)
    ensures var r := RequestParameter(s, opt, b);
      && PushReady(r.state, opt, trained)
      && AddDeltaParameter(r.state, opt, Some(trained)).pool.outstanding == s.pool.outstanding
  {
    var r := RequestParameter(s, opt, b);
    CoversAgain(s, opt, b, r.state, trained);
    RequestParameterDraws(s, opt, b);
    RetrainedBlockHandles(r.block, trained, opt);
    var h := multiset(BlockHandles(trained, opt));
    assert r.state.pool.outstanding == s.pool.outstanding + h;
    assert PushReady(r.state, opt, trained);
    var q := AddDeltaParameter(r.state, opt, Some(trained)).pool.outstanding;
    ReturnWhatWasDrawn(s.pool.outstanding, h, q);
  }

  /** The block `RequestParameter` fills is itself a trained block that kept
      its buffers (no training at all). */
  lemma {:induction false} UntrainedIsRetrained(s: State, opt: Options, b: DataBlock)
    requires Covers(s, opt, b) && WellFormed(b)
    ensures var r := RequestParameter(s, opt, b); Retrained(r.block, r.block, opt)
  {
    RequestParameterAttaches(s, opt, b);
    RequestParameterDraws(s, opt, b);
  }

  /** With no repeated node, `AddParameterByTableId` leaves each named row
      at `current + (new - current) / thread_cnt`, where `current` is the
      row it re-gets, and every other row as it was
      (src/communicator.cpp:158-187, 189-212). */
  lemma AddParameterByTableIdBlends(t: Table, b: DataBlock, kind: TableKind, nodes: seq<int>,
                                    handles: seq<Handle>, recycle: seq<Handle>, threadCnt: nat)
    requires threadCnt > 0 && |handles| == |nodes| && Holds(t, nodes)
    requires forall i :: 0 <= i < |nodes| ==>
      nodes[i] in SlotsOf(b, kind) && |SlotsOf(b, kind)[nodes[i]].data| == |t[nodes[i]]|
    requires Distinct(nodes)
    ensures PushedRows(t, AddParameterByTableId(t, b, kind, nodes, handles, recycle, threadCnt).table, b, kind, nodes, threadCnt)
  {
    var fetched := GetRows(t, nodes, handles);
    var d := GetDeltaLoop(b, kind, nodes, fetched, recycle, threadCnt);
    var deltas := Contents(d.scratch);
    AddRowsAdds(t, nodes, deltas);
    var t' := AddRows(t, nodes, deltas);
    assert AddParameterByTableId(t, b, kind, nodes, handles, recycle, threadCnt).table == t';
    forall i | 0 <= i < |nodes|
      ensures t'[nodes[i]] == Blend(t[nodes[i]], SlotsOf(b, kind)[nodes[i]].data, threadCnt)
    {
      assert deltas[i] == DeltaRow(SlotsOf(b, kind)[nodes[i]].data, fetched[i].data, threadCnt);
    }
  }

  /** Pushing a pair of tables blends each named row of both. */
  lemma PushPairBlends(tables: map<TableKind, Table>, pool: Pool, b: DataBlock, input: TableKind, output: TableKind,
                       recycle: seq<Handle>, threadCnt: nat)
    requires Valid(pool) && threadCnt > 0 && input != output
    requires PairAttached(tables, b, input, output)
    requires WellFormed(b)
    ensures var r := PushPair(tables, pool, b, input, output, recycle, threadCnt);
      && PushedRows(tables[input], r.tables[input], b, input, b.inputNodes, threadCnt)
      && PushedRows(tables[output], r.tables[output], b, output, b.outputNodes, threadCnt)
  {
    var d1 := Acquire(pool, |b.inputNodes|);
    var d2 := Acquire(d1.pool, |b.outputNodes|);
    var a1 := AddParameterByTableId(tables[input], b, input, b.inputNodes, d1.handles, recycle, threadCnt);
    AddParameterByTableIdBlends(tables[input], b, input, b.inputNodes, d1.handles, recycle, threadCnt);
    AddParameterByTableIdBlends(tables[output], b, output, b.outputNodes, d2.handles, a1.recycle, threadCnt);
    assert PushPair(tables, pool, b, input, output, recycle, threadCnt).tables
      == PushTables(tables, b, input, output, d1.handles, d2.handles, recycle, threadCnt).tables;
  }

  /** The embedding pair of a push blends each named row. */
  lemma PushEmbeddingsRows(s: State, opt: Options, b: DataBlock)
    requires Valid(s.pool) && opt.threadCnt > 0 && WellFormed(b)
    requires PairAttached(s.tables, b, InputEmbedding, OutputEmbedding)
    ensures var p := PushEmbeddings(s, opt, b);
      && PushedRows(s.tables[InputEmbedding], p.tables[InputEmbedding], b, InputEmbedding, b.inputNodes, opt.threadCnt)
      && PushedRows(s.tables[OutputEmbedding], p.tables[OutputEmbedding], b, OutputEmbedding, b.outputNodes, opt.threadCnt)
  {
    PushPairBlends(s.tables, s.pool, b, InputEmbedding, OutputEmbedding, [], opt.threadCnt);
  }

  /** The gradient pair of a push blends each named row. */
  lemma PushGradientsRows(opt: Options, b: DataBlock, p1: Push)
    requires Valid(p1.pool) && opt.threadCnt > 0 && WellFormed(b)
    requires PairAttached(p1.tables, b, InputGradient, OutputGradient)
    ensures var p := PushGradients(opt, b, p1);
      && PushedRows(p1.tables[InputGradient], p.tables[InputGradient], b, InputGradient, b.inputNodes, opt.threadCnt)
      && PushedRows(p1.tables[OutputGradient], p.tables[OutputGradient], b, OutputGradient, b.outputNodes, opt.threadCnt)
  {
    PushPairBlends(p1.tables, p1.pool, b, InputGradient, OutputGradient, p1.recycle, opt.threadCnt);
  }

  /** The gradient pair of a push leaves the embedding tables as they are. */
  lemma PushGradientsKeeps(opt: Options, b: DataBlock, p1: Push)
    requires Valid(p1.pool) && opt.threadCnt > 0
    requires PairAttached(p1.tables, b, InputGradient, OutputGradient)
    requires InputEmbedding in p1.tables && OutputEmbedding in p1.tables
    ensures var p := PushGradients(opt, b, p1);
      p.tables[InputEmbedding] == p1.tables[InputEmbedding] && p.tables[OutputEmbedding] == p1.tables[OutputEmbedding]
  {
    var p := PushGradients(opt, b, p1);
    AgreeAt(p1.tables, p.tables, InputGradient, OutputGradient, InputEmbedding);
    AgreeAt(p1.tables, p.tables, InputGradient, OutputGradient, OutputEmbedding);
  }

  /** Pushing a block blends each named row of each active table. */
  lemma PushBlockRows(s: State, opt: Options, b: DataBlock)
    requires Valid(s.pool) && opt.threadCnt > 0 && PairsAttached(s, opt, b) && WellFormed(b)
    requires Present(b, opt) && multiset(BlockHandles(b, opt)) <= s.pool.outstanding
    ensures var r := PushBlock(s, opt, b);
      && PushedRows(s.tables[InputEmbedding], r.tables[InputEmbedding], b, InputEmbedding, b.inputNodes, opt.threadCnt)
      && PushedRows(s.tables[OutputEmbedding], r.tables[OutputEmbedding], b, OutputEmbedding, b.outputNodes, opt.threadCnt)
      && (opt.useAdagrad ==>
           && PushedRows(s.tables[InputGradient], r.tables[InputGradient], b, InputGradient, b.inputNodes, opt.threadCnt)
           && PushedRows(s.tables[OutputGradient], r.tables[OutputGradient], b, OutputGradient, b.outputNodes, opt.threadCnt))
  {
    var p1 := PushEmbeddings(s, opt, b);
    if opt.useAdagrad {
      AgreeAt(s.tables, p1.tables, InputEmbedding, OutputEmbedding, InputGradient);
      AgreeAt(s.tables, p1.tables, InputEmbedding, OutputEmbedding, OutputGradient);
      PairAttachedFrame(s.tables, p1.tables, b, InputGradient, OutputGradient);
      PushGradientsKeeps(opt, b, p1);
      PushEmbeddingsRows(s, opt, b);
      PushGradientsRows(opt, b, p1);
    } else {
      PushEmbeddingsRows(s, opt, b);
    }
  }

  /** The rows `AddDeltaParameter` leaves: each named row of each active table
      is the blend of the table's current row with the block's row, and
      every other row is unchanged (src/communicator.cpp:66-69, 189-257). */
  lemma AddDeltaParameterRows(s: State, opt: Options, b: DataBlock)
    requires PushReady(s, opt, b) && WellFormed(b)
    ensures var r := AddDeltaParameter(s, opt, Some(b));
      && PushedRows(s.tables[InputEmbedding], r.tables[InputEmbedding], b, InputEmbedding, b.inputNodes, opt.threadCnt)
      && PushedRows(s.tables[OutputEmbedding], r.tables[OutputEmbedding], b, OutputEmbedding, b.outputNodes, opt.threadCnt)
      && (opt.useAdagrad ==>
           && PushedRows(s.tables[InputGradient], r.tables[InputGradient], b, InputGradient, b.inputNodes, opt.threadCnt)
           && PushedRows(s.tables[OutputGradient], r.tables[OutputGradient], b, OutputGradient, b.outputNodes, opt.threadCnt))
  {
    PairsAttachedFrom(s, opt, b);
    PushBlockRows(s, opt, b);
  }

  /** Each coordinate divided by the thread count. */
  function Scale(k: Row, threadCnt: nat): (r: Row)
    requires threadCnt > 0
    ensures |r| == |k|
    ensures forall j :: 0 <= j < |k| ==> r[j] * (threadCnt as real) == k[j]
  {
    seq(|k|, j requires 0 <= j < |k| => k[j] / (threadCnt as real))
  }

  /** A row trained locally by `k` moves the shared row by `k / thread_cnt`
      (src/communicator.cpp:181-184, 192-193). */
  lemma BlendShift(current: Row, k: Row, threadCnt: nat)
    requires |k| == |current| && threadCnt > 0
    ensures Blend(current, RowAdd(current, k), threadCnt) == RowAdd(current, Scale(k, threadCnt))
  {
    var r := Blend(current, RowAdd(current, k), threadCnt);
    forall j | 0 <= j < |current|
      ensures r[j] == current[j] + Scale(k, threadCnt)[j]
    {
      assert RowAdd(current, k)[j] - current[j] == k[j];
    }
  }

  /** With one thread the shared row becomes the locally trained row: the
      last push wins. */
  lemma SingleThreadAdopts(current: Row, newRow: Row)
    requires |newRow| == |current|
    ensures Blend(current, newRow, 1) == newRow
  {
    var r := Blend(current, newRow, 1);
    forall j | 0 <= j < |current|
      ensures r[j] == newRow[j]
    {
      assert DeltaRow(newRow, current, 1)[j] == newRow[j] - current[j];
    }
  }

  /** A row the trainer left as fetched pushes a zero delta. */
  lemma UntouchedRowUnchanged(current: Row, threadCnt: nat)
    requires threadCnt > 0
    ensures Blend(current, current, threadCnt) == current
  {
    var r := Blend(current, current, threadCnt);
    forall j | 0 <= j < |current|
      ensures r[j] == current[j]
    {
      assert DeltaRow(current, current, threadCnt)[j] == 0.0;
    }
  }

  /** The blended row lies on the segment from the current row to the
      trained row: the distance to the trained row shrinks by the factor
      `(thread_cnt - 1) / thread_cnt`. */
  lemma BlendTowardsTrained(current: Row, newRow: Row, threadCnt: nat)
    requires |newRow| == |current| && threadCnt > 0
    ensures var r := Blend(current, newRow, threadCnt);
      forall j :: 0 <= j < |current| ==>
        (newRow[j] - r[j]) * (threadCnt as real) == (newRow[j] - current[j]) * ((threadCnt - 1) as real)
  {
    var r := Blend(current, newRow, threadCnt);
    var t := threadCnt as real;
    forall j | 0 <= j < |current|
      ensures (newRow[j] - r[j]) * t == (newRow[j] - current[j]) * ((threadCnt - 1) as real)
    {
      var d := newRow[j] - current[j];
      assert r[j] == current[j] + d / t;
      assert (d / t) * t == d;
      calc {
        (newRow[j] - r[j]) * t;
        (d - d / t) * t;
        d * t - (d / t) * t;
        d * t - d;
        d * (t - 1.0);
      }
    }
  }

  /** Word counts added in turn accumulate, in either order. */
  lemma WordCountsAccumulate(s: State, a: int, b: int)
    ensures GetWordCount(AddWordCount(AddWordCount(s, a), b)) == GetWordCount(s) + a + b
    ensures AddWordCount(AddWordCount(s, a), b) == AddWordCount(AddWordCount(s, b), a)
  {
  }
}
