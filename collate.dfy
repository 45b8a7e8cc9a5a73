/** Batching of training items: every field is stacked along a new first
    dimension, and the variable-length graph point lists are first padded
    with zero points to the longest one in the batch. */
module Collate {
  import opened Outcomes

  /** A tensor seen along its first dimension: one row of values per entry. */
  datatype Tensor = Tensor(rows: seq<seq<real>>)

  /** The field holding the graph points of an item, one (x, y) row per point. */
  const GraphPointsKey := "graph_points"

  datatype CollateError = EmptyBatch | MissingKey(key: string) | ShapeMismatch(key: string)

  predicate SameShape(a: Tensor, b: Tensor)
  {
    |a.rows| == |b.rows| && forall i :: 0 <= i < |a.rows| ==> |a.rows[i]| == |b.rows[i]|
  }

  /** `torch.stack` accepts tensors of one common shape. */
  predicate Stackable(ts: seq<Tensor>)
  {
    forall b :: 0 <= b < |ts| ==> SameShape(ts[b], ts[0])
  }

  /** Every row is an (x, y) point, as the zero padding requires. */
  predicate PointRows(t: Tensor)
  {
    forall i :: 0 <= i < |t.rows| ==> |t.rows[i]| == 2
  }

  /** The largest row count among the tensors. */
  function MaxRows(ts: seq<Tensor>): (m: nat)
    ensures forall b :: 0 <= b < |ts| ==> |ts[b].rows| <= m
    ensures ts != [] ==> exists b :: 0 <= b < |ts| && |ts[b].rows| == m
  {
    if ts == [] then 0
    else
      var rest := MaxRows(ts[1..]);
      if |ts[0].rows| >= rest then |ts[0].rows|
      else
        assert ts[1..] != [] && exists b :: 0 <= b < |ts| - 1 && |ts[1..][b].rows| == rest;
        rest
  }

  /** A tensor extended with zero points up to m rows: its own rows come
      first, unchanged, and every added row is (0, 0). */
  function Padded(t: Tensor, m: nat): (p: Tensor)
    requires |t.rows| <= m
    ensures |p.rows| == m
    ensures p.rows[..|t.rows|] == t.rows
    ensures forall i :: |t.rows| <= i < m ==> p.rows[i] == [0.0, 0.0]
  {
    Tensor(t.rows + seq(m - |t.rows|, _ => [0.0, 0.0]))
  }

  /** Padding point lists to a common length makes them stackable. */
  lemma PaddedStackable(ts: seq<Tensor>, m: nat)
    requires forall b :: 0 <= b < |ts| ==> PointRows(ts[b]) && |ts[b].rows| <= m
    ensures Stackable(seq(|ts|, b requires 0 <= b < |ts| => Padded(ts[b], m)))
  {
    var ps := seq(|ts|, b requires 0 <= b < |ts| => Padded(ts[b], m));
    forall b, i | 0 <= b < |ps| && 0 <= i < m
      ensures |ps[b].rows[i]| == 2
    {
      if i < |ts[b].rows| {
        assert ps[b].rows[i] == ps[b].rows[..|ts[b].rows|][i];
      }
    }
  }

  /** Every item carries the key. */
  predicate HasKey(batch: seq<map<string, Tensor>>, key: string)
  {
    forall b :: 0 <= b < |batch| ==> key in batch[b]
  }

  /** The values of one key across the batch, in batch order. */
  function Column(batch: seq<map<string, Tensor>>, key: string): (ts: seq<Tensor>)
    requires HasKey(batch, key)
    ensures |ts| == |batch|
  {
    seq(|batch|, b requires 0 <= b < |batch| => batch[b][key])
  }

  /** The key can be collated: every item has it, and its values are point
      lists (for the graph points) or of one shape (for every other key). */
  predicate KeyCollatable(batch: seq<map<string, Tensor>>, key: string)
  {
    && HasKey(batch, key)
    && if key == GraphPointsKey then forall b :: 0 <= b < |batch| ==> PointRows(batch[b][key])
       else Stackable(Column(batch, key))
  }

  /** The collated value of one key. */
  function Collated(batch: seq<map<string, Tensor>>, key: string): (ts: seq<Tensor>)
    requires HasKey(batch, key)
    ensures |ts| == |batch|
  {
    var column := Column(batch, key);
    if key == GraphPointsKey then seq(|batch|, b requires 0 <= b < |batch| => Padded(column[b], MaxRows(column)))
    else column
  }

  /** The whole batch collates: it is not empty and every key of the first item collates. */
  predicate Collatable(batch: seq<map<string, Tensor>>)
  {
    batch != [] && forall key :: key in batch[0] ==> KeyCollatable(batch, key)
  }

  /** The collated graph points: each item's points come first, unchanged,
      followed by zero points up to the batch maximum, and the padded lists
      all have one shape. */
  lemma CollatedGraphPoints(batch: seq<map<string, Tensor>>)
    requires KeyCollatable(batch, GraphPointsKey)
    ensures var ts := Collated(batch, GraphPointsKey);
      var m := MaxRows(Column(batch, GraphPointsKey));
      && Stackable(ts)
      && forall b :: 0 <= b < |batch| ==>
           var own := batch[b][GraphPointsKey].rows;
           && |own| <= m
           && |ts[b].rows| == m
           && ts[b].rows[..|own|] == own
           && forall i :: |own| <= i < m ==> ts[b].rows[i] == [0.0, 0.0]
  {
    var column := Column(batch, GraphPointsKey);
    PaddedStackable(column, MaxRows(column));
  }

  /** Gathers one key's values across the batch, failing at the first item without it. */
  method GatherColumn(batch: seq<map<string, Tensor>>, key: string) returns (r: Result<seq<Tensor>, CollateError>)
    ensures r.Ok? <==> HasKey(batch, key)
    ensures r.Ok? ==> r.value == Column(batch, key)
    ensures r.Err? ==> r.error == MissingKey(key)
  {
    var tensors := [];
    var b := 0;
    while b < |batch|
      invariant 0 <= b <= |batch|
      invariant HasKey(batch[..b], key)
      invariant tensors == Column(batch[..b], key)
    {
      if key !in batch[b] {
        return Err(MissingKey(key));
      }
      tensors := tensors + [batch[b][key]];
      b := b + 1;
    }
    assert batch[..b] == batch;
    r := Ok(tensors);
  }

  /** The padding loop for the graph points of a batch. */
  method PadPoints(tensors: seq<Tensor>) returns (r: Result<seq<Tensor>, CollateError>)
    ensures r.Ok? <==> forall b :: 0 <= b < |tensors| ==> PointRows(tensors[b])
    ensures r.Err? ==> r.error == ShapeMismatch(GraphPointsKey)
    ensures r.Ok? ==> r.value == seq(|tensors|, b requires 0 <= b < |tensors| => Padded(tensors[b], MaxRows(tensors)))
  {
    var maxPointNum := MaxRows(tensors);
    var padded := [];
    var b := 0;
    while b < |tensors|
      invariant 0 <= b <= |tensors|
      invariant forall c :: 0 <= c < b ==> PointRows(tensors[c])
      invariant padded == seq(b, c requires 0 <= c < b => Padded(tensors[c], maxPointNum))
    {
      if !PointRows(tensors[b]) {
        return Err(ShapeMismatch(GraphPointsKey));
      }
      padded := padded + [Padded(tensors[b], maxPointNum)];
      b := b + 1;
    }
    r := Ok(padded);
  }

  /** The body of the loop over keys: gather, pad the graph points, stack. */
  method CollateKey(batch: seq<map<string, Tensor>>, key: string) returns (r: Result<seq<Tensor>, CollateError>)
    ensures r.Ok? <==> KeyCollatable(batch, key)
    ensures r.Ok? ==> HasKey(batch, key) && r.value == Collated(batch, key)
    ensures r.Err? ==> r.error != EmptyBatch
  {
    var column := GatherColumn(batch, key);
    if column.Err? {
      return Err(column.error);
    }
    var tensors := column.value;
    assert forall b :: 0 <= b < |batch| ==> tensors[b] == batch[b][key];
    if key == GraphPointsKey {
      var padded := PadPoints(tensors);
      if padded.Err? {
        return Err(padded.error);
      }
      r := Ok(padded.value);
    } else {
      if !Stackable(tensors) {
        return Err(ShapeMismatch(key));
      }
      r := Ok(tensors);
    }
  }

  /** `graph_collate_fn`: every key of the first item, collated over the batch. */
  method CollateBatch(batch: seq<map<string, Tensor>>) returns (r: Result<map<string, seq<Tensor>>, CollateError>)
    ensures r == Err(EmptyBatch) <==> batch == []
    ensures r.Ok? <==> Collatable(batch)
    ensures r.Ok? ==> r.value.Keys == batch[0].Keys
    ensures r.Ok? ==> forall key :: key in r.value ==> HasKey(batch, key) && r.value[key] == Collated(batch, key)
  {
    if |batch| == 0 {
      return Err(EmptyBatch);
    }
    var keys := batch[0].Keys;
    var collated: map<string, seq<Tensor>> := map[];
    var rest := keys;
    while rest != {}
      invariant rest <= keys
      invariant collated.Keys == keys - rest
      invariant forall key :: key in collated ==> KeyCollatable(batch, key) && collated[key] == Collated(batch, key)
      decreases |rest|
    {
      var key :| key in rest;
      var stacked := CollateKey(batch, key);
      if stacked.Err? {
        assert key in batch[0];
        return Err(stacked.error);
      }
      collated := collated[key := stacked.value];
      rest := rest - {key};
    }
    r := Ok(collated);
  }
}
