/** The batch-shape adapter: a source value handed to a transformer is either
    one example or a batch in one of three containers, and a per-example
    transform is lifted to batches by mapping it over the examples in order. */
module Batches {
  import opened NdArrays
  import opened Results

  /** A Python value handed to a transformer: a numpy array, or anything else
      (a plain int, a list of ints, ...). */
  datatype Value = Array(arr: NdArray<real>) | NonArray

  /** The three batch containers. */
  datatype Batch =
    | Dense(stack: NdArray<real>)              // one array, leading axis = batch index
    | List(elems: seq<Value>)            // a Python list of arrays
    | ObjectArray(elems: seq<Value>)     // a numpy array of dtype object
  {
    predicate WellFormed()
    {
      match this
      case Dense(s) => s.Valid() && |s.shape| >= 1
      case List(vs) => forall i :: 0 <= i < |vs| ==> vs[i].Array? ==> vs[i].arr.Valid()
      case ObjectArray(vs) => forall i :: 0 <= i < |vs| ==> vs[i].Array? ==> vs[i].arr.Valid()
    }

    /** The number of examples in the batch. */
    function Count(): nat
      requires WellFormed()
    {
      match this
      case Dense(s) => s.shape[0]
      case List(vs) => |vs|
      case ObjectArray(vs) => |vs|
    }
  }

  /** Example i of a dense stack (numpy's `stack[i]`). */
  function Slice(s: NdArray<real>, i: nat): (r: NdArray<real>)
    requires s.Valid() && |s.shape| >= 1 && i < s.shape[0]
    ensures r.Valid() && r.shape == s.shape[1..]
  {
    NdArray(s.shape[1..], s.data.items[i])
  }

  /** The examples of a batch, in order, whatever its container. */
  function Examples(b: Batch): (r: seq<Value>)
    requires b.WellFormed()
    ensures |r| == b.Count()
    ensures forall i :: 0 <= i < |r| ==> r[i].Array? ==> r[i].arr.Valid()
    ensures b.Dense? ==> forall i :: 0 <= i < |r| ==> r[i] == Array(Slice(b.stack, i))
  {
    match b
    case Dense(s) => seq(s.shape[0], i requires 0 <= i < s.shape[0] => Array(Slice(s, i)))
    case List(vs) => vs
    case ObjectArray(vs) => vs
  }

  /** Which example ranks an operator accepts. */
  datatype RankRule = Exactly(n: nat) | AtLeast(n: nat)
  {
    predicate Admits(rank: nat)
    {
      match this
      case Exactly(n) => rank == n
      case AtLeast(n) => rank >= n
    }
  }

  /** A per-example transform. It is handed the example's position in the
      batch (0 for a lone example) and the example; randomised transforms use
      the position to find their draws. */
  type Transform = (nat, NdArray<real>) --> Result<NdArray<real>>

  /** A transform defined on every array, taking valid arrays to valid arrays. */
  ghost predicate WellBehaved(f: Transform)
  {
    forall i: nat, x: NdArray<real> :: x.Valid() ==> f.requires(i, x) && (f(i, x).Ok? ==> f(i, x).value.Valid())
  }

  /** The per-example entry point (`transform_source_example`) for the
      example at position `i`: a value that is not an array, or whose rank the
      operator does not accept, is rejected before the transform runs. */
  function ApplyExample(i: nat, v: Value, rule: RankRule, f: Transform): Result<NdArray<real>>
    requires WellBehaved(f) && (v.Array? ==> v.arr.Valid())
  {
    match v
    case NonArray => Err(FormatError)
    case Array(x) => if rule.Admits(x.Rank()) then f(i, x) else Err(FormatError)
  }

  /** Position i of `xs` (counted from `start`) is the first one `f` rejects. */
  predicate FirstFailure(xs: seq<NdArray<real>>, start: nat, f: Transform, i: nat)
    requires WellBehaved(f) && forall j :: 0 <= j < |xs| ==> xs[j].Valid()
  {
    && i < |xs|
    && f(start + i, xs[i]).Err?
    && forall j :: 0 <= j < i ==> f(start + j, xs[j]).Ok?
  }

  /** `f` applied to every example in order, example j at position
      `start + j`; the first failure is the result. */
  function MapAll(xs: seq<NdArray<real>>, start: nat, f: Transform): (r: Result<seq<NdArray<real>>>)
    requires WellBehaved(f) && forall j :: 0 <= j < |xs| ==> xs[j].Valid()
    ensures r.Ok? <==> forall j :: 0 <= j < |xs| ==> f(start + j, xs[j]).Ok?
    ensures r.Ok? ==> |r.value| == |xs| && forall j :: 0 <= j < |xs| ==> r.value[j] == f(start + j, xs[j]).value
    decreases |xs|
  {
    if xs == [] then Ok([])
    else
      match f(start, xs[0])
      case Err(e) => Err(e)
      case Ok(y) =>
        assert forall j :: 0 < j < |xs| ==> xs[j] == xs[1..][j - 1];
        match MapAll(xs[1..], start + 1, f)
        case Err(e) => Err(e)
        case Ok(ys) =>
          assert forall j :: 0 < j < |xs| ==> f(start + j, xs[j]) == f(start + 1 + (j - 1), xs[1..][j - 1]);
          Ok([y] + ys)
  }

  /** Mapping stops at the first example `f` rejects, with that example's error. */
  lemma {:induction false} MapAllStopsAtFirstFailure(xs: seq<NdArray<real>>, start: nat, f: Transform, i: nat)
    requires WellBehaved(f) && forall j :: 0 <= j < |xs| ==> xs[j].Valid()
    requires FirstFailure(xs, start, f, i)
    ensures MapAll(xs, start, f) == Err(f(start + i, xs[i]).error)
    decreases i
  {
    if i > 0 {
      assert f(start, xs[0]).Ok?;
      forall j | 0 <= j < i - 1 ensures f(start + 1 + j, xs[1..][j]).Ok? {
        assert f(start + (j + 1), xs[j + 1]).Ok?;
      }
      assert FirstFailure(xs[1..], start + 1, f, i - 1);
      MapAllStopsAtFirstFailure(xs[1..], start + 1, f, i - 1);
    }
  }

  /** The entry point applied to every value in order, value j at position
      j; the first failure is the result. */
  function MapValues(vs: seq<Value>, start: nat, rule: RankRule, f: Transform): (r: Result<seq<NdArray<real>>>)
    requires WellBehaved(f) && forall j :: 0 <= j < |vs| ==> vs[j].Array? ==> vs[j].arr.Valid()
    ensures r.Ok? <==> forall j :: 0 <= j < |vs| ==> ApplyExample(start + j, vs[j], rule, f).Ok?
    ensures r.Ok? ==> |r.value| == |vs| && forall j :: 0 <= j < |vs| ==> r.value[j] == ApplyExample(start + j, vs[j], rule, f).value
    decreases |vs|
  {
    if vs == [] then Ok([])
    else
      match ApplyExample(start, vs[0], rule, f)
      case Err(e) => Err(e)
      case Ok(y) =>
        match MapValues(vs[1..], start + 1, rule, f)
        case Err(e) => Err(e)
        case Ok(ys) => Ok([y] + ys)
  }

  predicate SameShapes(ys: seq<NdArray<real>>)
  {
    forall i :: 0 <= i < |ys| ==> ys[i].shape == ys[0].shape
  }

  /** Stacks equally shaped results into a dense batch; results of differing
      shapes are returned as a list rather than dropped. An empty result keeps
      the example shape of the input stack. */
  function Restack(ys: seq<NdArray<real>>, emptyShape: seq<nat>): (r: Batch)
    requires forall i :: 0 <= i < |ys| ==> ys[i].Valid()
    ensures r.WellFormed()
  {
    if |ys| == 0 then Dense(NdArray([0] + emptyShape, Stack([])))
    else if SameShapes(ys) then
      var shape := [|ys|] + ys[0].shape;
      assert shape[1..] == ys[0].shape;
      var items := seq(|ys|, i requires 0 <= i < |ys| => ys[i].data);
      assert forall i :: 0 <= i < |ys| ==> ys[i].Valid() && ys[i].shape == ys[0].shape;
      assert forall i :: 0 <= i < |items| ==> HasShape(items[i], shape[1..]);
      Dense(NdArray(shape, Stack(items)))
    else List(seq(|ys|, i requires 0 <= i < |ys| => Array(ys[i])))
  }

  function Arrays(ys: seq<NdArray<real>>): (r: seq<Value>)
    ensures |r| == |ys| && forall i :: 0 <= i < |ys| ==> r[i] == Array(ys[i])
  {
    seq(|ys|, i requires 0 <= i < |ys| => Array(ys[i]))
  }

  /** Puts per-example results back into a container of the input's kind. */
  function Rebuild(b: Batch, ys: seq<NdArray<real>>): (r: Batch)
    requires b.WellFormed()
    requires forall i :: 0 <= i < |ys| ==> ys[i].Valid()
    ensures r.WellFormed()
  {
    match b
    case Dense(s) => Restack(ys, s.shape[1..])
    case List(_) => List(Arrays(ys))
    case ObjectArray(_) => ObjectArray(Arrays(ys))
  }


  /** Mapping the entry point stops at the first value it rejects, with that value's error. */
  lemma {:induction false} MapValuesStopsAtFirstFailure(vs: seq<Value>, start: nat, rule: RankRule, f: Transform, i: nat)
    requires WellBehaved(f) && forall j :: 0 <= j < |vs| ==> vs[j].Array? ==> vs[j].arr.Valid()
    requires i < |vs| && ApplyExample(start + i, vs[i], rule, f).Err?
    requires forall j :: 0 <= j < i ==> ApplyExample(start + j, vs[j], rule, f).Ok?
    ensures MapValues(vs, start, rule, f) == Err(ApplyExample(start + i, vs[i], rule, f).error)
    decreases i
  {
    if i > 0 {
      assert ApplyExample(start, vs[0], rule, f).Ok?;
      forall j | 0 <= j < i - 1 ensures ApplyExample(start + 1 + j, vs[1..][j], rule, f).Ok? {
        assert ApplyExample(start + (j + 1), vs[j + 1], rule, f).Ok?;
      }
      assert vs[1..][i - 1] == vs[i];
      MapValuesStopsAtFirstFailure(vs[1..], start + 1, rule, f, i - 1);
    }
  }

  /** The examples of a dense stack, as arrays. */
  function Slices(s: NdArray<real>): (r: seq<NdArray<real>>)
    requires s.Valid() && |s.shape| >= 1
    ensures |r| == s.shape[0] && forall i :: 0 <= i < |r| ==> r[i] == Slice(s, i) && r[i].Valid()
  {
    seq(s.shape[0], i requires 0 <= i < s.shape[0] => Slice(s, i))
  }

  /** The batch entry point (`transform_source_batch`). A dense stack must
      have an accepted example rank; a list must hold only arrays of an accepted
      rank (checked before any example is transformed); an object array is
      transformed element by element through the per-example entry point.
      Example i is transformed at position i. */
  function MapExamples(b: Batch, rule: RankRule, f: Transform): (r: Result<Batch>)
    requires b.WellFormed() && WellBehaved(f)
    ensures r.Ok? ==> r.value.WellFormed()
  {
    match b
    case Dense(s) =>
      if !rule.Admits(s.Rank() - 1) then Err(FormatError)
      else
        (match MapAll(Slices(s), 0, f)
         case Err(e) => Err(e)
         case Ok(ys) => Ok(Rebuild(b, ys)))
    case List(vs) =>
      if !ListAdmitted(vs, rule) then Err(FormatError)
      else
        (match MapValues(vs, 0, rule, f)
         case Err(e) => Err(e)
         case Ok(ys) => Ok(Rebuild(b, ys)))
    case ObjectArray(vs) =>
      match MapValues(vs, 0, rule, f)
      case Err(e) => Err(e)
      case Ok(ys) => Ok(Rebuild(b, ys))
  }

  /** Every element of a list batch is an array of an accepted rank. */
  predicate ListAdmitted(vs: seq<Value>, rule: RankRule)
  {
    forall i :: 0 <= i < |vs| ==> vs[i].Array? && rule.Admits(vs[i].arr.Rank())
  }

  /** The batch-level check made before any example is transformed: the rank
      of a dense stack's examples, or the elements of a list. */
  predicate AdmittedAsBatch(b: Batch, rule: RankRule)
    requires b.WellFormed()
  {
    && (b.Dense? ==> rule.Admits(b.stack.Rank() - 1))
    && (b.List? ==> ListAdmitted(b.elems, rule))
  }

  /** Restacking then reading back the examples gives the results in order. */
  lemma RestackExamples(ys: seq<NdArray<real>>, emptyShape: seq<nat>)
    requires forall i :: 0 <= i < |ys| ==> ys[i].Valid()
    ensures Examples(Restack(ys, emptyShape)) == Arrays(ys)
  {
    var r := Restack(ys, emptyShape);
    if |ys| > 0 && SameShapes(ys) {
      forall i | 0 <= i < |ys| ensures Examples(r)[i] == Array(ys[i]) {
        assert Slice(r.stack, i) == ys[i];
      }
    }
  }

  /** Results that all have the example shape `shape` are stacked into one
      dense array of shape `[count] + shape`. */
  lemma RestackShape(ys: seq<NdArray<real>>, shape: seq<nat>)
    requires forall i :: 0 <= i < |ys| ==> ys[i].Valid() && ys[i].shape == shape
    ensures Restack(ys, shape).Dense? && Restack(ys, shape).stack.shape == [|ys|] + shape
  {
  }

  /** On an admitted batch, the entry point at position i of example i is the transform itself. */
  lemma ApplyAdmitted(b: Batch, rule: RankRule, f: Transform)
    requires b.WellFormed() && WellBehaved(f) && b.Dense? && AdmittedAsBatch(b, rule)
    ensures forall i :: 0 <= i < b.Count() ==>
      ApplyExample(i, Examples(b)[i], rule, f) == f(i, Slices(b.stack)[i])
  {
  }

  /** The adapter's central guarantee: whatever the container, a batch
      transform succeeds exactly when the batch passes the batch-level check
      and the per-example entry point succeeds on every example at its
      position; its examples are then the per-example results, in order, and
      otherwise its error is that of the first example that fails. */
  lemma {:induction false} MapExamplesIsPerExampleMap(b: Batch, rule: RankRule, f: Transform)
    requires b.WellFormed() && WellBehaved(f)
    ensures var xs := Examples(b);
      MapExamples(b, rule, f).Ok? <==>
        AdmittedAsBatch(b, rule) && forall i :: 0 <= i < |xs| ==> ApplyExample(i, xs[i], rule, f).Ok?
    ensures var xs := Examples(b);
      MapExamples(b, rule, f).Ok? ==>
        && MapExamples(b, rule, f).value
           == Rebuild(b, seq(|xs|, i requires 0 <= i < |xs| => ApplyExample(i, xs[i], rule, f).value))
        && MapExamples(b, rule, f).value.WellFormed()
        && Examples(MapExamples(b, rule, f).value)
           == seq(|xs|, i requires 0 <= i < |xs| => Array(ApplyExample(i, xs[i], rule, f).value))
  {
    var xs := Examples(b);
    var r := MapExamples(b, rule, f);
    match b
    case Dense(s) =>
      if rule.Admits(s.Rank() - 1) {
        ApplyAdmitted(b, rule, f);
        var m := MapAll(Slices(s), 0, f);
        if r.Ok? {
          RestackExamples(m.value, s.shape[1..]);
          assert m.value == seq(|xs|, i requires 0 <= i < |xs| => ApplyExample(i, xs[i], rule, f).value);
        }
      }
    case List(vs) =>
      if ListAdmitted(vs, rule) {
        if r.Ok? {
          var ys := MapValues(vs, 0, rule, f).value;
          assert ys == seq(|xs|, i requires 0 <= i < |xs| => ApplyExample(i, xs[i], rule, f).value);
          assert Examples(r.value) == Arrays(ys);
        }
      } else {
        var i :| 0 <= i < |vs| && !(vs[i].Array? && rule.Admits(vs[i].arr.Rank()));
        assert !ApplyExample(i, xs[i], rule, f).Ok?;
      }
    case ObjectArray(vs) =>
      if r.Ok? {
        var ys := MapValues(vs, 0, rule, f).value;
        assert ys == seq(|xs|, i requires 0 <= i < |xs| => ApplyExample(i, xs[i], rule, f).value);
        assert Examples(r.value) == Arrays(ys);
      }
  }

  /** Example i of a successfully mapped batch is the entry point's result
      for example i at position i. */
  lemma MapExamplesAt(b: Batch, rule: RankRule, f: Transform, i: nat)
    requires b.WellFormed() && WellBehaved(f) && MapExamples(b, rule, f).Ok? && i < b.Count()
    ensures ApplyExample(i, Examples(b)[i], rule, f).Ok?
    ensures MapExamples(b, rule, f).value.Count() == b.Count()
    ensures Examples(MapExamples(b, rule, f).value)[i] == Array(ApplyExample(i, Examples(b)[i], rule, f).value)
  {
    MapExamplesIsPerExampleMap(b, rule, f);
  }

  /** A batch that passes the batch-level check fails with the error of the
      first example the entry point rejects. */
  lemma MapExamplesStopsAtFirstFailure(b: Batch, rule: RankRule, f: Transform, i: nat)
    requires b.WellFormed() && WellBehaved(f) && AdmittedAsBatch(b, rule)
    requires i < b.Count() && ApplyExample(i, Examples(b)[i], rule, f).Err?
    requires forall j :: 0 <= j < i ==> ApplyExample(j, Examples(b)[j], rule, f).Ok?
    ensures MapExamples(b, rule, f) == Err(ApplyExample(i, Examples(b)[i], rule, f).error)
  {
    var xs := Examples(b);
    match b
    case Dense(s) =>
      ApplyAdmitted(b, rule, f);
      assert FirstFailure(Slices(s), 0, f, i);
      MapAllStopsAtFirstFailure(Slices(s), 0, f, i);
    case List(vs) =>
      MapValuesStopsAtFirstFailure(vs, 0, rule, f, i);
    case ObjectArray(vs) =>
      MapValuesStopsAtFirstFailure(vs, 0, rule, f, i);
  }

  /** A batch that passes the batch-level check, and whose examples the
      entry point all accepts, maps to its per-example results put back in
      the batch's container. */
  lemma MapExamplesOfResults(b: Batch, rule: RankRule, f: Transform, ys: seq<NdArray<real>>)
    requires b.WellFormed() && WellBehaved(f) && AdmittedAsBatch(b, rule)
    requires |ys| == b.Count()
    requires forall j :: 0 <= j < |ys| ==>
      ApplyExample(j, Examples(b)[j], rule, f).Ok? && ys[j] == ApplyExample(j, Examples(b)[j], rule, f).value
    ensures forall j :: 0 <= j < |ys| ==> ys[j].Valid()
    ensures MapExamples(b, rule, f) == Ok(Rebuild(b, ys))
  {
    var xs := Examples(b);
    MapExamplesIsPerExampleMap(b, rule, f);
    assert ys == seq(|xs|, i requires 0 <= i < |xs| => ApplyExample(i, xs[i], rule, f).value);
  }

  /** Mapping never changes which container a list or object array comes back in,
      a dense stack stays dense when every result has the same shape, and the
      number of examples is kept. */
  lemma MapExamplesKeepsContainer(b: Batch, rule: RankRule, f: Transform, outShape: seq<nat>)
    requires b.WellFormed() && WellBehaved(f)
    requires forall i: nat, x: NdArray<real> :: x.Valid() && f(i, x).Ok? ==> f(i, x).value.shape == outShape
    requires MapExamples(b, rule, f).Ok?
    ensures b.Dense? ==> MapExamples(b, rule, f).value.Dense?
    ensures b.Dense? && b.Count() > 0 ==> MapExamples(b, rule, f).value.stack.shape == [b.Count()] + outShape
    ensures b.List? ==> MapExamples(b, rule, f).value.List?
    ensures b.ObjectArray? ==> MapExamples(b, rule, f).value.ObjectArray?
    ensures MapExamples(b, rule, f).value.Count() == b.Count()
  {
    MapExamplesIsPerExampleMap(b, rule, f);
    if b.Dense? {
      var ys := MapAll(Slices(b.stack), 0, f).value;
      assert forall i :: 0 <= i < |ys| ==> ys[i].shape == outShape;
    }
  }

  /** Values the entry point accepts at every position are arrays of an accepted rank. */
  lemma AllAcceptedAdmitted(xs: seq<Value>, rule: RankRule, f: Transform)
    requires WellBehaved(f) && forall i :: 0 <= i < |xs| ==> xs[i].Array? ==> xs[i].arr.Valid()
    requires forall i :: 0 <= i < |xs| ==> ApplyExample(i, xs[i], rule, f).Ok?
    ensures ListAdmitted(xs, rule)
  {
    forall i | 0 <= i < |xs| ensures xs[i].Array? && rule.Admits(xs[i].arr.Rank()) {
      assert ApplyExample(i, xs[i], rule, f).Ok?;
    }
  }

  /** The same examples give the same results whether they arrive as a dense
      stack, a list or an object array: a batch and the list of its examples
      succeed together and then hold the same examples. */
  lemma RepresentationIndependent(b: Batch, rule: RankRule, f: Transform)
    requires b.WellFormed() && WellBehaved(f)
    requires b.Dense? ==> b.Count() > 0
    ensures List(Examples(b)).WellFormed()
    ensures MapExamples(b, rule, f).Ok? <==> MapExamples(List(Examples(b)), rule, f).Ok?
    ensures MapExamples(b, rule, f).Ok? ==>
      Examples(MapExamples(b, rule, f).value) == Examples(MapExamples(List(Examples(b)), rule, f).value)
  {
    var xs := Examples(b);
    var l := List(xs);
    assert Examples(l) == xs;
    MapExamplesIsPerExampleMap(b, rule, f);
    MapExamplesIsPerExampleMap(l, rule, f);
    var allOk := forall i :: 0 <= i < |xs| ==> ApplyExample(i, xs[i], rule, f).Ok?;
    if allOk {
      AllAcceptedAdmitted(xs, rule, f);
      assert AdmittedAsBatch(l, rule);
      if b.Dense? {
        assert xs[0].arr.Rank() == b.stack.Rank() - 1;
      }
      assert AdmittedAsBatch(b, rule);
    }
  }

  /** A "batch" whose elements are not arrays, such as `[1, 2, 3, 4]`, is
      rejected by both entry points. */
  lemma NonArraysRejected(vs: seq<Value>, rule: RankRule, f: Transform)
    requires WellBehaved(f) && ObjectArray(vs).WellFormed()
    requires exists i :: 0 <= i < |vs| && vs[i] == NonArray
    ensures MapExamples(List(vs), rule, f) == Err(FormatError)
    ensures MapExamples(ObjectArray(vs), rule, f).Err?
    ensures forall i: nat :: ApplyExample(i, NonArray, rule, f) == Err(FormatError)
  {
    var i :| 0 <= i < |vs| && vs[i] == NonArray;
    MapExamplesIsPerExampleMap(ObjectArray(vs), rule, f);
  }
}
