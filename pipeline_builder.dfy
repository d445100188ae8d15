/** The pipeline builder component (`PipelineBuilder`): an ordered list of chosen
    applets, its total price and the arguments of the execute button. */
module PipelineBuilder {
  import opened Base
  import Seqs

  /** An applet as the builder sees it; `price` is an exact integer amount of wei. */
  datatype PipelineApplet = PipelineApplet(
    id: int,
    name: string,
    price: int,
    inputSchema: Option<string>,
    outputSchema: Option<string>)

  /** What the execute button hands to `onExecute`. */
  datatype ExecuteCall = ExecuteCall(appletIds: seq<int>, totalPrice: int, inputData: string)

  /** `pipeline.reduce((sum, applet) => sum + applet.price, 0n)`: a left fold over the
      prices with exact (big-integer) addition. */
  function TotalPrice(pipeline: seq<PipelineApplet>): (total: int)
    ensures pipeline == [] ==> total == 0
  {
    if pipeline == [] then 0
    else TotalPrice(pipeline[..|pipeline| - 1]) + pipeline[|pipeline| - 1].price
  }

  /** Prices are never negative in practice, and then neither is the total. */
  lemma {:induction false} TotalPriceNonNegative(pipeline: seq<PipelineApplet>)
    requires forall i :: 0 <= i < |pipeline| ==> pipeline[i].price >= 0
    ensures TotalPrice(pipeline) >= 0
  {
    if pipeline != [] {
      TotalPriceNonNegative(pipeline[..|pipeline| - 1]);
    }
  }

  /** The total of a concatenation is the sum of the totals. */
  lemma {:induction false} TotalPriceConcat(a: seq<PipelineApplet>, b: seq<PipelineApplet>)
    ensures TotalPrice(a + b) == TotalPrice(a) + TotalPrice(b)
  {
    if b != [] {
      var last := |b| - 1;
      TotalPriceConcat(a, b[..last]);
      assert (a + b)[..|a + b| - 1] == a + b[..last];
    } else {
      assert a + b == a;
    }
  }

  /** Appending an applet raises the total by exactly its price. */
  lemma TotalPriceAppend(pipeline: seq<PipelineApplet>, applet: PipelineApplet)
    ensures TotalPrice(pipeline + [applet]) == TotalPrice(pipeline) + applet.price
  {
    assert (pipeline + [applet])[..|pipeline|] == pipeline;
  }

  /** Removing the element at `i` lowers the total by exactly that element's price. */
  lemma TotalPriceRemove(pipeline: seq<PipelineApplet>, i: nat)
    requires i < |pipeline|
    ensures TotalPrice(pipeline[..i] + pipeline[i + 1..]) == TotalPrice(pipeline) - pipeline[i].price
  {
    var left, right := pipeline[..i], pipeline[i + 1..];
    var upTo := pipeline[..i + 1];
    assert upTo == left + [pipeline[i]];
    assert pipeline == upTo + right;
    TotalPriceConcat(upTo, right);
    TotalPriceAppend(left, pipeline[i]);
    TotalPriceConcat(left, right);
  }

  /** The total does not depend on the order of the pipeline: any rearrangement of the
      same applets costs the same. */
  lemma {:induction false} TotalPricePermutation(a: seq<PipelineApplet>, b: seq<PipelineApplet>)
    requires multiset(a) == multiset(b)
    ensures TotalPrice(a) == TotalPrice(b)
    decreases |a|
  {
    if a == [] {
      assert |b| == |multiset(b)| == 0;
    } else {
      var n := |a| - 1;
      var x := a[n];
      assert x in multiset(b);
      var j :| 0 <= j < |b| && b[j] == x;
      var rest := b[..j] + b[j + 1..];
      Seqs.RemoveOneMultiset(a, n);
      assert a[..n] + a[n + 1..] == a[..n];
      Seqs.RemoveOneMultiset(b, j);
      TotalPricePermutation(a[..n], rest);
      TotalPriceRemove(b, j);
      TotalPriceRemove(a, n);
    }
  }

  /** `[...pipeline].splice(index, 1)`: removes one element at `index`, where a negative
      index counts from the end (clamped to the first element) and an index at or past
      the end removes nothing. */
  function Spliced(pipeline: seq<PipelineApplet>, index: int): (r: seq<PipelineApplet>)
    ensures 0 <= index < |pipeline| ==>
      && |r| == |pipeline| - 1
      && (forall j :: 0 <= j < index ==> r[j] == pipeline[j])
      && (forall j :: index <= j < |r| ==> r[j] == pipeline[j + 1])
    ensures index >= |pipeline| ==> r == pipeline
    ensures -|pipeline| <= index < 0 ==> r == pipeline[..|pipeline| + index] + pipeline[|pipeline| + index + 1..]
    ensures index < -|pipeline| && pipeline != [] ==> r == pipeline[1..]
    ensures pipeline == [] ==> r == []
  {
    var start :=
      if index < 0 then (if |pipeline| + index < 0 then 0 else |pipeline| + index)
      else (if index < |pipeline| then index else |pipeline|);
    if start < |pipeline| then pipeline[..start] + pipeline[start + 1..] else pipeline
  }

  /** The ids of the pipeline, in pipeline order: `pipeline.map(p => p.id)`. */
  function AppletIds(pipeline: seq<PipelineApplet>): (ids: seq<int>)
    ensures |ids| == |pipeline|
    ensures forall i :: 0 <= i < |pipeline| ==> ids[i] == pipeline[i].id
  {
    seq(|pipeline|, i requires 0 <= i < |pipeline| => pipeline[i].id)
  }

  /** The component's state. */
  class Builder {
    var pipeline: seq<PipelineApplet>
    var inputData: string

    /** The component on first render: no applets and no input text. */
    constructor ()
      ensures pipeline == [] && inputData == ""
      ensures TotalPrice(pipeline) == 0
    {
      pipeline := [];
      inputData := "";
    }

    /** `addToPipeline`: appends the applet (the same applet may be added again). */
    method AddToPipeline(applet: PipelineApplet)
      modifies this
      ensures pipeline == old(pipeline) + [applet]
      ensures TotalPrice(pipeline) == old(TotalPrice(pipeline)) + applet.price
      ensures inputData == old(inputData)
    {
      TotalPriceAppend(pipeline, applet);
      pipeline := pipeline + [applet];
    }

    /** `removeFromPipeline`: splices out the element at `index`. */
    method RemoveFromPipeline(index: int)
      modifies this
      ensures pipeline == Spliced(old(pipeline), index)
      ensures 0 <= index < |old(pipeline)| ==>
        TotalPrice(pipeline) == old(TotalPrice(pipeline)) - old(pipeline)[index].price
      ensures inputData == old(inputData)
    {
      if 0 <= index < |pipeline| {
        TotalPriceRemove(pipeline, index);
        assert Spliced(pipeline, index) == pipeline[..index] + pipeline[index + 1..];
      }
      pipeline := Spliced(pipeline, index);
    }

    /** The textarea's `onChange`: replaces the input text. */
    method SetInputData(text: string)
      modifies this
      ensures inputData == text && pipeline == old(pipeline)
    {
      inputData := text;
    }

    /** A click on the execute button. It is disabled (no call) unless the pipeline is
        non-empty and a wallet is connected; otherwise `onExecute` receives the ids in
        pipeline order with duplicates, the exact total and the input text. */
    method Execute(isConnected: bool) returns (call: Option<ExecuteCall>)
      ensures call.Some? <==> |pipeline| > 0 && isConnected
      ensures call.Some? ==>
        && |call.value.appletIds| == |pipeline|
        && (forall i :: 0 <= i < |pipeline| ==> call.value.appletIds[i] == pipeline[i].id)
        && call.value.totalPrice == TotalPrice(pipeline)
        && call.value.inputData == inputData
    {
      if |pipeline| == 0 || !isConnected {
        call := None;
      } else {
        call := Some(ExecuteCall(AppletIds(pipeline), TotalPrice(pipeline), inputData));
      }
    }
  }
}
