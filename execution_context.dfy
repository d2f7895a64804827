/**
 * `ExecutionContext`: the per-query runtime context of the execution engine. Modelled
 * here: the output-row layout (`ComputeTupleSize`, `OutputBufferNew`), the table of
 * hook functions, and the operating-unit feature vectors of a pipeline.
 */
module ExecutionContext {
  import opened Wrappers
  import opened MathUtil

  /** An output schema, reduced to what the row layout needs: its columns' sizes and alignments. */
  datatype OutputSchema = OutputSchema(columns: seq<Column>)

  /** An `OutputBuffer` as constructed by `OutputBufferNew`: its column count and row size. */
  datatype OutputBuffer = OutputBuffer(numColumns: nat, tupleSize: nat)

  /**
   * `ComputeTupleSize`: the byte size of an output row. Each column is placed at the
   * first offset at or after the running size that suits its alignment.
   */
  method ComputeTupleSize(schema: OutputSchema) returns (tupleSize: nat)
    requires WellFormed(schema.columns)
    ensures tupleSize == LayoutEnd(schema.columns)
    ensures tupleSize >= SumSizes(schema.columns)
    ensures NaturallyAligned(schema.columns) ==> tupleSize == SumSizes(schema.columns)
  {
    var cols := schema.columns;
    tupleSize := 0;
    var i := 0;
    while i < |cols|
      invariant 0 <= i <= |cols|
      invariant tupleSize == LayoutEnd(cols[..i])
    {
      var alignment := cols[i].alignment;
      if !IsAligned(tupleSize, alignment) {
        tupleSize := AlignTo(tupleSize, alignment);
      }
      tupleSize := tupleSize + cols[i].size;
      assert cols[..i + 1][..i] == cols[..i];
      i := i + 1;
    }
    assert cols[..i] == cols;
    LayoutCoversSizes(cols);
    if NaturallyAligned(cols) {
      LayoutOfAlignedIsSum(cols);
    }
  }

  /** `OutputBufferNew`: no buffer (null) when the query has no output schema. */
  method OutputBufferNew(schema: Option<OutputSchema>) returns (buffer: Option<OutputBuffer>)
    requires schema.Some? ==> WellFormed(schema.value.columns)
    ensures schema.None? <==> buffer.None?
    ensures schema.Some? ==> buffer.value.numColumns == |schema.value.columns|
    ensures schema.Some? ==> buffer.value.tupleSize == LayoutEnd(schema.value.columns)
  {
    if schema.None? {
      return None;
    }
    var size := ComputeTupleSize(schema.value);
    buffer := Some(OutputBuffer(|schema.value.columns|, size));
  }

  // ---------------------------------------------------------------------------
  // Operating-unit feature vectors
  // ---------------------------------------------------------------------------

  /** The `ExecutionOperatingUnitType`s this model distinguishes. */
  datatype OUType =
    | SEQ_SCAN | IDX_SCAN | OUTPUT
    | HASHJOIN_BUILD | HASHJOIN_PROBE
    | AGGREGATE_BUILD | AGGREGATE_ITERATE
    | SORT_BUILD | SORT_TOPK_BUILD | SORT_ITERATE
    | CREATE_INDEX | CREATE_INDEX_MAIN
    | PARALLEL_MERGE_HASHJOIN | PARALLEL_MERGE_AGGBUILD
    | PARALLEL_SORT_STEP | PARALLEL_SORT_MERGE_STEP

  /** `OperatingUnitUtil::IsOperatingUnitTypeBlocking`: the build sides of the pipeline breakers. */
  predicate IsBlocking(t: OUType)
  {
    t in {HASHJOIN_BUILD, SORT_BUILD, SORT_TOPK_BUILD, AGGREGATE_BUILD, CREATE_INDEX}
  }

  /** An `ExecutionOperatingUnitFeature`: its type, its estimates and its concurrency. */
  datatype OUFeature = OUFeature(
    ouType: OUType, featureId: nat, numRows: nat, keySize: nat,
    numKeys: nat, cardinality: nat, numLoops: nat, numConcurrent: nat)

  /** A `ExecOUFeatureVector`: the pipeline it describes and its features. */
  datatype ExecOUFeatureVector = ExecOUFeatureVector(pipelineId: nat, features: seq<OUFeature>)

  /** The blocking features of a pipeline, in pipeline order. */
  function BlockingFeatures(s: seq<OUFeature>): (r: seq<OUFeature>)
    ensures |r| <= |s|
    ensures forall f :: f in r ==> f in s && IsBlocking(f.ouType)
    ensures forall f :: f in s && IsBlocking(f.ouType) ==> f in r
  {
    if s == [] then []
    else
      var init := BlockingFeatures(s[..|s| - 1]);
      var last := s[|s| - 1];
      assert s == s[..|s| - 1] + [last];
      if IsBlocking(last.ouType) then init + [last] else init
  }

  /**
   * The parallel operating units that stand for a blocking unit when the pipeline runs
   * in parallel; empty for a type that has no parallel form.
   */
  function ParallelUnits(t: OUType): (r: seq<OUType>)
    ensures r != [] ==> IsBlocking(t)
    ensures |r| <= 2
    ensures forall u :: u in r ==> !IsBlocking(u)
  {
    match t
    case HASHJOIN_BUILD => [PARALLEL_MERGE_HASHJOIN]
    case AGGREGATE_BUILD => [PARALLEL_MERGE_AGGBUILD]
    case SORT_BUILD => [PARALLEL_SORT_STEP, PARALLEL_SORT_MERGE_STEP]
    case CREATE_INDEX => [CREATE_INDEX_MAIN]
    case _ => []
  }

  /** Of the blocking types, only the top-k sort build has no parallel form. */
  lemma ParallelUnitsCoverBlocking(t: OUType)
    ensures ParallelUnits(t) == [] <==> !IsBlocking(t) || t == SORT_TOPK_BUILD
  {
  }

  /** Why `InitializeParallelOUFeatureVector` gives up (its debug assertions). */
  datatype ParallelOUError = MultipleBlocking | NoBlocking | UnsupportedParallelOU

  datatype ParallelResult = Built(vec: ExecOUFeatureVector) | Failed(error: ParallelOUError)

  /** `feature.SetNumConcurrent(n)` applied to every feature. */
  function WithConcurrency(s: seq<OUFeature>, n: nat): (r: seq<OUFeature>)
    ensures |r| == |s|
    ensures forall i :: 0 <= i < |s| ==> r[i] == s[i].(numConcurrent := n)
  {
    seq(|s|, i requires 0 <= i < |s| => s[i].(numConcurrent := n))
  }

  /** The features that replace the blocking feature `b`, one per parallel unit, each a copy of `b`. */
  function ParallelFeatures(b: OUFeature, units: seq<OUType>): (r: seq<OUFeature>)
    ensures |r| == |units|
    ensures forall i :: 0 <= i < |units| ==> r[i] == b.(ouType := units[i])
  {
    seq(|units|, i requires 0 <= i < |units| => b.(ouType := units[i]))
  }

  /** A registered `HookFn`. */
  datatype HookFn = HookFn(id: nat)

  /** One call of a registered hook: the hook, and the query state and arguments passed to it. */
  datatype HookCall = HookCall(hook: HookFn, queryState: nat, tls: nat, arg: nat)

  /** The debug assertion of `RegisterHook`: the index is below the capacity of `hooks_`. */
  predicate RegisterHookAdmits(hookIdx: nat, capacity: nat)
  {
    hookIdx < capacity
  }

  class ExecutionContext {
    /** `num_concurrent_estimate_`. */
    const numConcurrentEstimate: nat
    /** `query_state_`, the first argument of every hook. */
    const queryState: nat
    /** `pipeline_operating_units_`: the features of each pipeline of the query. */
    const pipelineUnits: map<nat, seq<OUFeature>>
    /** `hooks_`: a null entry is `None`. */
    var hooks: seq<Option<HookFn>>
    /** `hooks_.capacity()`. */
    var hooksCapacity: nat
    /** The hook calls made so far, in order. */
    var hookCalls: seq<HookCall>

    ghost predicate Valid()
      reads this
    {
      |hooks| <= hooksCapacity
    }

    constructor (numConcurrentEstimate: nat, queryState: nat, pipelineUnits: map<nat, seq<OUFeature>>)
      ensures Valid()
      ensures this.numConcurrentEstimate == numConcurrentEstimate && this.queryState == queryState
      ensures this.pipelineUnits == pipelineUnits
      ensures hooks == [] && hooksCapacity == 0 && hookCalls == []
    {
      this.numConcurrentEstimate := numConcurrentEstimate;
      this.queryState := queryState;
      this.pipelineUnits := pipelineUnits;
      hooks, hooksCapacity, hookCalls := [], 0, [];
    }

    /**
     * `InitHooks(n)`: `hooks_.resize(n)`. The first `min(old size, n)` slots keep their
     * hooks and any new slot is null; the capacity never shrinks and covers `n` (how far
     * it grows beyond that is up to the vector's implementation).
     */
    method InitHooks(numHooks: nat)
      requires Valid()
      modifies this
      ensures Valid()
      ensures |hooks| == numHooks
      ensures forall i :: 0 <= i < numHooks ==> hooks[i] == if i < |old(hooks)| then old(hooks)[i] else None
      ensures hooksCapacity >= numHooks && hooksCapacity >= old(hooksCapacity)
      ensures hookCalls == old(hookCalls)
    {
      if numHooks <= |hooks| {
        hooks := hooks[..numHooks];
      } else {
        hooks := hooks + seq(numHooks - |hooks|, _ => None);
      }
      if hooksCapacity < numHooks {
        hooksCapacity := numHooks;
      }
    }

    /**
     * `RegisterHook(i, hook)`: sets slot `i` and leaves the others as they were. The slot
     * must exist (see Findings in the README: the source only asserts `i < capacity`).
     */
    method RegisterHook(hookIdx: nat, hook: HookFn)
      requires Valid() && hookIdx < |hooks|
      modifies this
      ensures Valid()
      ensures hooks == old(hooks)[hookIdx := Some(hook)]
      ensures hooksCapacity == old(hooksCapacity) && hookCalls == old(hookCalls)
    {
      hooks := hooks[hookIdx := Some(hook)];
    }

    /**
     * `RegisterHook` as written: the only check is the debug assertion that the index is
     * below the capacity, so an index past the end but inside the capacity is let through,
     * and the write reaches no slot (it is out of bounds of the vector).
     */
    method RegisterHookAsWritten(hookIdx: nat, hook: HookFn) returns (stored: bool)
      requires Valid() && RegisterHookAdmits(hookIdx, hooksCapacity)
      modifies this`hooks
      ensures Valid()
      ensures stored <==> hookIdx < |old(hooks)|
      ensures stored ==> hooks == old(hooks)[hookIdx := Some(hook)]
      ensures !stored ==> hooks == old(hooks)
    {
      stored := hookIdx < |hooks|;
      if stored {
        hooks := hooks[hookIdx := Some(hook)];
      }
    }

    /** `InvokeHook(i, tls, arg)`: calls the hook in slot `i` if there is one; otherwise does nothing. */
    method InvokeHook(hookIndex: nat, tls: nat, arg: nat)
      requires Valid()
      modifies this
      ensures hooks == old(hooks) && hooksCapacity == old(hooksCapacity)
      ensures hookCalls == old(hookCalls) +
        if hookIndex < |hooks| && hooks[hookIndex].Some?
        then [HookCall(hooks[hookIndex].value, queryState, tls, arg)]
        else []
    {
      if hookIndex < |hooks| && hooks[hookIndex] != None {
        hookCalls := hookCalls + [HookCall(hooks[hookIndex].value, queryState, tls, arg)];
      }
    }

    /**
     * `InitializeOUFeatureVector`: a copy of the pipeline's features, each with its
     * concurrency set to the context's estimate.
     */
    method InitializeOUFeatureVector(pipelineId: nat) returns (vec: ExecOUFeatureVector)
      requires pipelineId in pipelineUnits
      ensures vec.pipelineId == pipelineId
      ensures vec.features == WithConcurrency(pipelineUnits[pipelineId], numConcurrentEstimate)
    {
      var features := pipelineUnits[pipelineId];
      var out := features;
      var i := 0;
      while i < |out|
        invariant 0 <= i <= |out| == |features|
        invariant forall j :: 0 <= j < i ==> out[j] == features[j].(numConcurrent := numConcurrentEstimate)
        invariant forall j :: i <= j < |out| ==> out[j] == features[j]
      {
        out := out[i := out[i].(numConcurrent := numConcurrentEstimate)];
        i := i + 1;
      }
      vec := ExecOUFeatureVector(pipelineId, out);
    }

    /**
     * `InitializeParallelOUFeatureVector`: the pipeline must have exactly one blocking
     * feature, and that feature's type must have a parallel form; the vector then holds
     * one copy of the blocking feature per parallel unit, with the concurrency estimate.
     */
    method InitializeParallelOUFeatureVector(pipelineId: nat) returns (r: ParallelResult)
      requires pipelineId in pipelineUnits
      ensures var blocking := BlockingFeatures(pipelineUnits[pipelineId]);
        && (|blocking| > 1 <==> r == Failed(MultipleBlocking))
        && (blocking == [] <==> r == Failed(NoBlocking))
        && (|blocking| == 1 && ParallelUnits(blocking[0].ouType) == [] <==> r == Failed(UnsupportedParallelOU))
        && (r.Built? ==> r.vec == ExecOUFeatureVector(pipelineId,
              WithConcurrency(ParallelFeatures(blocking[0], ParallelUnits(blocking[0].ouType)), numConcurrentEstimate)))
    {
      var features := pipelineUnits[pipelineId];
      var multiple, found := FindBlocking(features);
      if multiple {
        return Failed(MultipleBlocking);
      }
      if found.None? {
        return Failed(NoBlocking);
      }
      var feature := found.value;
      var units := ParallelUnits(feature.ouType);
      if units == [] {
        return Failed(UnsupportedParallelOU);
      }
      var out := BuildParallelFeatures(feature, units, numConcurrentEstimate);
      r := Built(ExecOUFeatureVector(pipelineId, out));
    }
  }

  /**
   * The scan of `InitializeParallelOUFeatureVector` for the blocking feature: it stops at
   * a second blocking feature, and otherwise reports the one it found, if any.
   */
  method FindBlocking(features: seq<OUFeature>) returns (multiple: bool, found: Option<OUFeature>)
    ensures multiple <==> |BlockingFeatures(features)| > 1
    ensures !multiple ==> (found.None? <==> BlockingFeatures(features) == [])
    ensures !multiple && found.Some? ==> BlockingFeatures(features) == [found.value]
  {
    var foundBlocking := false;
    var feature := OUFeature(SEQ_SCAN, 0, 0, 0, 0, 0, 0, 0);
    var i := 0;
    while i < |features|
      invariant 0 <= i <= |features|
      invariant foundBlocking <==> BlockingFeatures(features[..i]) != []
      invariant foundBlocking ==> BlockingFeatures(features[..i]) == [feature]
    {
      assert features[..i + 1][..i] == features[..i];
      if IsBlocking(features[i].ouType) {
        if foundBlocking {
          BlockingPrefixGrows(features, i + 1);
          return true, None;
        }
        foundBlocking := true;
        feature := features[i];
      }
      i := i + 1;
    }
    assert features[..i] == features;
    multiple := false;
    found := if foundBlocking then Some(feature) else None;
  }

  /**
   * The vector `InitializeParallelOUFeatureVector` builds: one copy of the blocking
   * feature per parallel unit, then the concurrency set on each.
   */
  method BuildParallelFeatures(feature: OUFeature, units: seq<OUType>, numConcurrent: nat) returns (out: seq<OUFeature>)
    ensures out == WithConcurrency(ParallelFeatures(feature, units), numConcurrent)
  {
    out := [];
    var k := 0;
    while k < |units|
      invariant 0 <= k <= |units|
      invariant out == ParallelFeatures(feature, units[..k])
    {
      out := out + [feature.(ouType := units[k])];
      k := k + 1;
    }
    assert units[..k] == units;
    var j := 0;
    while j < |out|
      invariant 0 <= j <= |out| == |units|
      invariant forall m :: 0 <= m < j ==> out[m] == feature.(ouType := units[m], numConcurrent := numConcurrent)
      invariant forall m :: j <= m < |out| ==> out[m] == feature.(ouType := units[m])
    {
      out := out[j := out[j].(numConcurrent := numConcurrent)];
      j := j + 1;
    }
  }

  /** Once a prefix has two blocking features, so does every longer prefix. */
  lemma {:induction false} BlockingPrefixGrows(s: seq<OUFeature>, k: nat)
    requires k <= |s| && |BlockingFeatures(s[..k])| > 1
    ensures |BlockingFeatures(s)| > 1
    decreases |s| - k
  {
    if k < |s| {
      assert s[..k + 1][..k] == s[..k];
      BlockingPrefixGrows(s, k + 1);
    } else {
      assert s[..k] == s;
    }
  }

  /**
   * Shrinking the hooks keeps the capacity: after `InitHooks(4)` and `InitHooks(2)` the
   * index 3 passes the check of `RegisterHook` although there is no slot 3, and the hook
   * is stored nowhere.
   */
  method ShrunkHooksAdmitMissingSlot() returns (ctx: ExecutionContext, stored: bool)
    ensures |ctx.hooks| == 2 && ctx.hooksCapacity >= 4
    ensures RegisterHookAdmits(3, ctx.hooksCapacity) && 3 >= |ctx.hooks|
    ensures !stored && ctx.hooks == [None, None]
  {
    ctx := new ExecutionContext(1, 0, map[]);
    ctx.InitHooks(4);
    ctx.InitHooks(2);
    stored := ctx.RegisterHookAsWritten(3, HookFn(0));
  }
}
