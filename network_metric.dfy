/**
 * `NetworkMetricRawData`: the per-thread buffer of network operating-unit samples,
 * merged into the global buffer by `Aggregate` and written out by `ToCSV`.
 */
module NetworkMetric {

  /** The operating unit a sample belongs to (`NetworkOperatingUnit`). */
  datatype NetworkOperatingUnit = INVALID | READ | WRITE

  /** `network::network_features`: the counted protocol messages of one sample. */
  datatype NetworkFeatures = NetworkFeatures(
    operatingUnit: NetworkOperatingUnit,
    numSimpleQuery: nat, numParse: nat, numBind: nat,
    numDescribe: nat, numExecute: nat, numSync: nat, bytes: nat)

  /** `ResourceTracker::Metrics`, kept opaque: the start time, elapsed time and the rest. */
  datatype ResourceMetrics = ResourceMetrics(start: nat, elapsedUs: nat, cpuId: int, memoryBytes: nat)

  /** `NetworkData`: one recorded sample. */
  datatype NetworkData = NetworkData(features: NetworkFeatures, resourceMetrics: ResourceMetrics)

  /** `1 << 15`: the byte budget of an aggregated buffer. */
  const AGGREGATE_BYTES: nat := 32768

  /** `(1 << 15) / sizeof(NetworkData)`: the most samples `Aggregate` lets the target hold. */
  function AggregateCap(recordSize: nat): (cap: nat)
    requires recordSize > 0
    ensures cap * recordSize <= AGGREGATE_BYTES < (cap + 1) * recordSize
  {
    AGGREGATE_BYTES / recordSize
  }

  /**
   * What `Aggregate` keeps of the source buffer: as many of its first samples as fit
   * below the cap; nothing if the target is already at or above the cap.
   */
  function TransferCount(targetSize: nat, sourceSize: nat, cap: nat): (k: nat)
    ensures k <= sourceSize
    ensures targetSize >= cap ==> k == 0
    ensures targetSize < cap ==> targetSize + k <= cap
    ensures targetSize + k < cap ==> k == sourceSize
  {
    if targetSize >= cap then 0
    else if sourceSize <= cap - targetSize then sourceSize
    else cap - targetSize
  }

  class NetworkMetricRawData {
    /** `sizeof(NetworkData)` on the target platform. */
    const recordSize: nat
    /** `network_data_`, front first. */
    var networkData: seq<NetworkData>
    /** The rows `ToCSV` has written to `network.csv`, in order. */
    var csvRows: seq<NetworkData>

    constructor (recordSize: nat)
      requires recordSize > 0
      ensures this.recordSize == recordSize && networkData == [] && csvRows == []
    {
      this.recordSize := recordSize;
      networkData := [];
      csvRows := [];
    }

    /**
     * `Aggregate(other)`: moves samples from the front of `other` to the back of this
     * buffer, in order, while this buffer holds fewer than the cap; then empties `other`,
     * dropping whatever did not fit.
     */
    method Aggregate(other: NetworkMetricRawData)
      requires other != this && recordSize > 0
      modifies this, other
      ensures other.networkData == []
      ensures networkData == old(networkData) + old(other.networkData)[..TransferCount(|old(networkData)|, |old(other.networkData)|, AggregateCap(recordSize))]
      ensures csvRows == old(csvRows) && other.csvRows == old(other.csvRows)
    {
      if other.networkData != [] {
        var size := AggregateCap(recordSize);
        ghost var moved := 0;
        while other.networkData != [] && |networkData| < size
          invariant moved <= |old(other.networkData)|
          invariant other.networkData == old(other.networkData)[moved..]
          invariant networkData == old(networkData) + old(other.networkData)[..moved]
          invariant |old(networkData)| >= size ==> moved == 0
          invariant |old(networkData)| < size ==> |networkData| <= size
          invariant csvRows == old(csvRows) && other.csvRows == old(other.csvRows)
          decreases |other.networkData|
        {
          networkData := networkData + [other.networkData[0]];
          other.networkData := other.networkData[1..];
          moved := moved + 1;
          assert old(other.networkData)[..moved] == old(other.networkData)[..moved - 1] + [old(other.networkData)[moved - 1]];
        }
        other.networkData := [];
      }
    }

    /** `RecordNetworkData`: appends one sample at the back. */
    method RecordNetworkData(features: NetworkFeatures, resourceMetrics: ResourceMetrics)
      modifies this
      ensures networkData == old(networkData) + [NetworkData(features, resourceMetrics)]
      ensures csvRows == old(csvRows)
    {
      networkData := networkData + [NetworkData(features, resourceMetrics)];
    }

    /** `ToCSV`: writes every buffered sample, in order, and leaves the buffer empty. */
    method ToCSV()
      modifies this
      ensures csvRows == old(csvRows) + old(networkData)
      ensures networkData == []
    {
      var i := 0;
      while i < |networkData|
        invariant 0 <= i <= |networkData|
        invariant networkData == old(networkData)
        invariant csvRows == old(csvRows) + networkData[..i]
      {
        csvRows := csvRows + [networkData[i]];
        i := i + 1;
        assert networkData[..i] == networkData[..i - 1] + [networkData[i - 1]];
      }
      assert networkData[..i] == networkData;
      networkData := [];
    }
  }
}
