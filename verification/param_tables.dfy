/** The parameter store as the Communicator sees it: a matrix table maps a
    node id to its row, `Get` copies rows into caller buffers and `Add`
    applies an additive update to each named row. Storage, sharding and the
    per-row atomicity of the external store are not part of this model; rows
    hold ideal reals rather than floats. */
module ParamTables {
  import opened Seqs
  import opened BufferPool

  type Row = seq<real>

  type Table = map<int, Row>

  /** A row buffer: the pool handle and the values it currently holds. */
  datatype Buffer = Buffer(handle: Handle, data: Row)

  /** Every row of the table has the embedding size. */
  ghost predicate Shaped(t: Table, dim: nat) {
    forall n :: n in t ==> |t[n]| == dim
  }

  /** Every named node has a row in the table. */
  ghost predicate Holds(t: Table, nodes: seq<int>) {
    forall i :: 0 <= i < |nodes| ==> nodes[i] in t
  }

  function RowAdd(a: Row, b: Row): (r: Row)
    requires |a| == |b|
  {
    seq(|a|, j requires 0 <= j < |a| => a[j] + b[j])
  }

  /** `table->Get(row_ids, ptrs, size)`: the i-th buffer keeps its handle and
      receives the current row of the i-th node; a repeated node gets its own
      copy. */
  function GetRows(t: Table, nodes: seq<int>, handles: seq<Handle>): (bufs: seq<Buffer>)
    requires |handles| == |nodes| && Holds(t, nodes)
    ensures |bufs| == |nodes|
    ensures forall i :: 0 <= i < |bufs| ==> bufs[i].handle == handles[i] && bufs[i].data == t[nodes[i]]
  {
    seq(|nodes|, i requires 0 <= i < |nodes| => Buffer(handles[i], t[nodes[i]]))
  }

  /** `table->Add(row_ids, ptrs, size)`: the i-th delta is added to the row of
      the i-th node, one after the other. The table keeps its rows and their
      sizes. */
  function AddRows(t: Table, nodes: seq<int>, deltas: seq<Row>): (r: Table)
    requires |deltas| == |nodes| && Holds(t, nodes)
    requires forall i :: 0 <= i < |nodes| ==> |deltas[i]| == |t[nodes[i]]|
    ensures r.Keys == t.Keys
    ensures forall n :: n in t ==> |r[n]| == |t[n]|
    decreases |nodes|
  {
    if |nodes| == 0 then t
    else
      var last := |nodes| - 1;
      assert nodes == nodes[..last] + [nodes[last]];
      var t0 := AddRows(t, nodes[..last], deltas[..last]);
      t0[nodes[last] := RowAdd(t0[nodes[last]], deltas[last])]
  }

  /** A row not named is untouched. */
  lemma {:induction false} AddRowsKeeps(t: Table, nodes: seq<int>, deltas: seq<Row>, n: int)
    requires |deltas| == |nodes| && Holds(t, nodes)
    requires forall i :: 0 <= i < |nodes| ==> |deltas[i]| == |t[nodes[i]]|
    requires n in t && n !in nodes
    ensures AddRows(t, nodes, deltas)[n] == t[n]
    decreases |nodes|
  {
    if |nodes| > 0 {
      var last := |nodes| - 1;
      assert n != nodes[last] && n !in nodes[..last];
      AddRowsKeeps(t, nodes[..last], deltas[..last], n);
    }
  }

  /** ... for all rows not named. */
  lemma AddRowsUnnamed(t: Table, nodes: seq<int>, deltas: seq<Row>)
    requires |deltas| == |nodes| && Holds(t, nodes)
    requires forall i :: 0 <= i < |nodes| ==> |deltas[i]| == |t[nodes[i]]|
    ensures forall n :: n in t && n !in nodes ==> AddRows(t, nodes, deltas)[n] == t[n]
  {
    forall n | n in t && n !in nodes
      ensures AddRows(t, nodes, deltas)[n] == t[n]
    {
      AddRowsKeeps(t, nodes, deltas, n);
    }
  }

  /** With no node repeated, each named row is its old value plus its
      delta. */
  lemma {:induction false} AddRowsAdds(t: Table, nodes: seq<int>, deltas: seq<Row>)
    requires |deltas| == |nodes| && Holds(t, nodes)
    requires forall i :: 0 <= i < |nodes| ==> |deltas[i]| == |t[nodes[i]]|
    ensures var r := AddRows(t, nodes, deltas);
      Distinct(nodes) ==> forall i :: 0 <= i < |nodes| ==> r[nodes[i]] == RowAdd(t[nodes[i]], deltas[i])
    decreases |nodes|
  {
    if |nodes| > 0 && Distinct(nodes) {
      var last := |nodes| - 1;
      assert Distinct(nodes[..last]);
      AddRowsAdds(t, nodes[..last], deltas[..last]);
      var t0 := AddRows(t, nodes[..last], deltas[..last]);
      var r := AddRows(t, nodes, deltas);
      assert nodes[last] !in nodes[..last];
      AddRowsKeeps(t, nodes[..last], deltas[..last], nodes[last]);
      assert r == t0[nodes[last] := RowAdd(t0[nodes[last]], deltas[last])];
      forall i | 0 <= i < |nodes|
        ensures r[nodes[i]] == RowAdd(t[nodes[i]], deltas[i])
      {
        if i < last {
          assert nodes[i] == nodes[..last][i] && deltas[i] == deltas[..last][i];
          assert nodes[i] != nodes[last];
          assert r[nodes[i]] == t0[nodes[i]];
        }
      }
    }
  }
}
