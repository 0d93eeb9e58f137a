/**
 * The online index sampling job (OnlineIndexSamplingJob.run): sample one
 * index through its proxy and, when the index is online, replace the index's
 * row of the statistics store with the sampled figures.
 */
module IndexSampling {
  import opened Wrappers

  datatype InternalIndexState = POPULATING | ONLINE | FAILED

  /** IndexSample(indexSize, uniqueValues, sampleSize). */
  datatype IndexSample = IndexSample(indexSize: int, uniqueValues: int, sampleSize: int)

  /** One row of the statistics store; rows are only ever replaced whole. */
  datatype IndexCounts = IndexCounts(uniqueValues: int, sampleSize: int, indexSize: int)

  /** The error a reader or a sampler raises when the index has gone away. */
  datatype IndexNotFoundKernelException = IndexNotFoundKernelException

  /** IndexSampler: sampleIndex() yields this sample or fails. */
  datatype IndexSampler = IndexSampler(sampleIndex: Result<IndexSample, IndexNotFoundKernelException>)

  /** IndexReader: createSampler() yields this sampler. */
  datatype IndexReader = IndexReader(createSampler: IndexSampler)

  /** IndexProxy: the index's current state and the reader newReader() opens. */
  class IndexProxy {
    var state: InternalIndexState
    var newReader: Result<IndexReader, IndexNotFoundKernelException>

    constructor (state: InternalIndexState, newReader: Result<IndexReader, IndexNotFoundKernelException>)
      ensures this.state == state && this.newReader == newReader
    {
      this.state := state;
      this.newReader := newReader;
    }

    method GetState() returns (s: InternalIndexState)
      ensures s == state
    {
      s := state;
    }

    method NewReader() returns (r: Result<IndexReader, IndexNotFoundKernelException>)
      ensures r == newReader
    {
      r := newReader;
    }
  }

  /** IndexStatisticsStore: the rows by index id, and the replaceIndexCounts calls received so far. */
  class IndexStatisticsStore {
    var counts: map<int, IndexCounts>
    var replacements: seq<(int, IndexCounts)>

    constructor (counts: map<int, IndexCounts>)
      ensures this.counts == counts && replacements == []
    {
      this.counts := counts;
      replacements := [];
    }

    method ReplaceIndexCounts(indexId: int, uniqueValues: int, sampleSize: int, indexSize: int)
      modifies this
      ensures counts == old(counts)[indexId := IndexCounts(uniqueValues, sampleSize, indexSize)]
      ensures replacements == old(replacements) + [(indexId, IndexCounts(uniqueValues, sampleSize, indexSize))]
    {
      counts := counts[indexId := IndexCounts(uniqueValues, sampleSize, indexSize)];
      replacements := replacements + [(indexId, IndexCounts(uniqueValues, sampleSize, indexSize))];
    }
  }

  /** The sample newReader() -> createSampler() -> sampleIndex() yields, if any. */
  function SampleThrough(newReader: Result<IndexReader, IndexNotFoundKernelException>): Option<IndexSample> {
    match newReader
    case Success(reader) =>
      (match reader.createSampler.sampleIndex
       case Success(sample) => Some(sample)
       case Failure(_) => None)
    case Failure(_) => None
  }

  /** The row a sample is stored as. */
  function CountsOf(sample: IndexSample): IndexCounts {
    IndexCounts(sample.uniqueValues, sample.sampleSize, sample.indexSize)
  }

  class OnlineIndexSamplingJob {
    const indexId: int
    const indexProxy: IndexProxy
    const indexStatisticsStore: IndexStatisticsStore
    const indexUserDescription: string

    constructor (indexId: int, indexProxy: IndexProxy, indexStatisticsStore: IndexStatisticsStore,
                 indexUserDescription: string)
      ensures this.indexId == indexId && this.indexProxy == indexProxy
      ensures this.indexStatisticsStore == indexStatisticsStore
      ensures this.indexUserDescription == indexUserDescription
    {
      this.indexId := indexId;
      this.indexProxy := indexProxy;
      this.indexStatisticsStore := indexStatisticsStore;
      this.indexUserDescription := indexUserDescription;
    }

    /**
     * run(): samples the index, then, only if the index is online, replaces
     * its row once with the sample's figures. A reader or sampler that fails
     * (the index is not found) leaves the store untouched, as does any state
     * other than ONLINE. No other row changes, and the proxy is only read.
     */
    method Run()
      modifies indexStatisticsStore
      ensures var sample := SampleThrough(indexProxy.newReader);
        if indexProxy.state == ONLINE && sample.Some? then
          && indexStatisticsStore.counts == old(indexStatisticsStore.counts)[indexId := CountsOf(sample.value)]
          && indexStatisticsStore.replacements ==
               old(indexStatisticsStore.replacements) + [(indexId, CountsOf(sample.value))]
        else
          unchanged(indexStatisticsStore)
      ensures forall id :: id != indexId ==>
        (id in indexStatisticsStore.counts <==> id in old(indexStatisticsStore.counts)) &&
        (id in indexStatisticsStore.counts ==> indexStatisticsStore.counts[id] == old(indexStatisticsStore.counts)[id])
    {
      var reader := indexProxy.NewReader();
      if reader.Failure? {
        return;
      }
      var sampler := reader.value.createSampler;
      var sample := sampler.sampleIndex;
      if sample.Failure? {
        return;
      }
      var state := indexProxy.GetState();
      if state == ONLINE {
        indexStatisticsStore.ReplaceIndexCounts(
          indexId, sample.value.uniqueValues, sample.value.sampleSize, sample.value.indexSize);
      }
    }
  }

  /** The online scenario: one replacement, for index 1, with 21 unique values out of 23. */
  method SampleAndStoreWhenOnline() returns (counts: map<int, IndexCounts>, replacements: seq<(int, IndexCounts)>)
    ensures replacements == [(1, IndexCounts(21, 23, 23))]
    ensures counts == map[1 := IndexCounts(21, 23, 23)]
  {
    var sample := IndexSample(23, 21, 23);
    var proxy := new IndexProxy(ONLINE, Success(IndexReader(IndexSampler(Success(sample)))));
    var store := new IndexStatisticsStore(map[]);
    var job := new OnlineIndexSamplingJob(1, proxy, store, "Foo");
    job.Run();
    counts, replacements := store.counts, store.replacements;
  }

  /** The failed scenario: the index is sampled but nothing reaches the store. */
  method SampleButDoNotStoreWhenFailed() returns (counts: map<int, IndexCounts>, replacements: seq<(int, IndexCounts)>)
    ensures replacements == [] && counts == map[]
  {
    var sample := IndexSample(23, 21, 23);
    var proxy := new IndexProxy(FAILED, Success(IndexReader(IndexSampler(Success(sample)))));
    var store := new IndexStatisticsStore(map[]);
    var job := new OnlineIndexSamplingJob(1, proxy, store, "Foo");
    job.Run();
    counts, replacements := store.counts, store.replacements;
  }
}
