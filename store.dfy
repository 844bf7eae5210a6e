/**
 * The REST work item store's argument checks: the constructor that rejects null
 * factories and a page size outside the batch-size range, its overload that derives
 * the HTTP client factory from the project collection factory, and the id query
 * that rejects a null id list and short-circuits an empty one.
 */
module RestWorkItemStore {
  import opened Wrappers

  /** The exceptions raised by the store's argument checks. */
  datatype StoreError =
    | ArgumentNull(paramName: string)
    | PageSizeRange

  /** The inclusive range a page size must lie in (the query's minimum and maximum batch size). */
  datatype BatchSizes = BatchSizes(minimum: int, maximum: int)

  /**
   * A constructed store: its three factories and its page size. Each factory is only
   * stored (inside a lazy value), never called, by the constructor.
   */
  datatype Store<T, W, Q> = Store(tpcFactory: T, wisFactory: W, queryFactory: Q, pageSize: int)

  /**
   * The HTTP client factory the shorter constructor derives: a closure that calls the
   * project collection factory it captured and asks its result for a client.
   */
  datatype ClientFactory<T> = ClientOf(tpcFactory: Option<T>)

  /** The page size lies in the closed batch-size range. */
  predicate InRange(pageSize: int, sizes: BatchSizes)
  {
    sizes.minimum <= pageSize <= sizes.maximum
  }

  /**
   * The full constructor: each factory is checked for null in parameter order, then
   * the page size is checked against the range. `None` stands for a null argument.
   */
  function NewStore<T, W, Q>(tpcFactory: Option<T>, wisFactory: Option<W>, queryFactory: Option<Q>,
                             pageSize: int, sizes: BatchSizes): (r: Result<Store<T, W, Q>, StoreError>)
    ensures r.Success? <==> tpcFactory.Some? && wisFactory.Some? && queryFactory.Some? && InRange(pageSize, sizes)
    ensures r.Success? ==> r.value == Store(tpcFactory.value, wisFactory.value, queryFactory.value, pageSize)
    ensures tpcFactory.None? ==> r == Failure(ArgumentNull("tpcFactory"))
    ensures tpcFactory.Some? && wisFactory.None? ==> r == Failure(ArgumentNull("wisFactory"))
    ensures tpcFactory.Some? && wisFactory.Some? && queryFactory.None? ==> r == Failure(ArgumentNull("queryFactory"))
    ensures r.Failure? && r.error == PageSizeRange <==>
              tpcFactory.Some? && wisFactory.Some? && queryFactory.Some? && !InRange(pageSize, sizes)
  {
    if tpcFactory.None? then Failure(ArgumentNull("tpcFactory"))
    else if wisFactory.None? then Failure(ArgumentNull("wisFactory"))
    else if queryFactory.None? then Failure(ArgumentNull("queryFactory"))
    else if pageSize < sizes.minimum || pageSize > sizes.maximum then Failure(PageSizeRange)
    else Success(Store(tpcFactory.value, wisFactory.value, queryFactory.value, pageSize))
  }

  /** The shorter constructor: the client factory is derived from `tpcFactory` and is never null. */
  function NewStoreFromCollection<T, Q>(tpcFactory: Option<T>, queryFactory: Option<Q>,
                                        pageSize: int, sizes: BatchSizes): (r: Result<Store<T, ClientFactory<T>, Q>, StoreError>)
    ensures r != Failure(ArgumentNull("wisFactory"))
    ensures r.Success? <==> tpcFactory.Some? && queryFactory.Some? && InRange(pageSize, sizes)
    ensures r.Success? ==> r.value.wisFactory == ClientOf(tpcFactory)
  {
    NewStore(tpcFactory, Some(ClientOf(tpcFactory)), queryFactory, pageSize, sizes)
  }

  /** Both constructors default the page size to the maximum batch size, which any non-empty range accepts. */
  lemma DefaultPageSizeAccepted<T, W, Q>(tpcFactory: T, wisFactory: W, queryFactory: Q, sizes: BatchSizes)
    requires sizes.minimum <= sizes.maximum
    ensures NewStore(Some(tpcFactory), Some(wisFactory), Some(queryFactory), sizes.maximum, sizes).Success?
    ensures NewStoreFromCollection(Some(tpcFactory), Some(queryFactory), sizes.maximum, sizes).Success?
  {
  }

  /** The query the query factory is asked to create and run: a copy of the ids and the as-of time. */
  datatype IdQuery = IdQuery(ids: seq<int>, asOf: Option<int>)

  /** What the id query returns: an empty collection made on the spot, or the result of running a created query. */
  datatype QueryOutcome =
    | EmptyCollection
    | RunQuery(query: IdQuery)

  /**
   * The query by ids: a null id list is rejected, an empty one gives an empty collection
   * without touching the query factory, and any other list is handed to the factory.
   * `asOf` stands for the optional point in time, kept abstract as an integer.
   */
  function Query(ids: Option<seq<int>>, asOf: Option<int>): (r: Result<QueryOutcome, StoreError>)
    ensures ids.None? <==> r == Failure(ArgumentNull("ids"))
    ensures r == Success(EmptyCollection) <==> ids == Some([])
    ensures ids.Some? && ids.value != [] ==> r == Success(RunQuery(IdQuery(ids.value, asOf)))
  {
    if ids.None? then Failure(ArgumentNull("ids"))
    else
      var copy := ids.value;
      if |copy| == 0 then Success(EmptyCollection)
      else Success(RunQuery(IdQuery(copy, asOf)))
  }

  /** The query factory is consulted exactly when the id list is present and non-empty. */
  lemma QueryUsesFactoryOnlyForIds(ids: Option<seq<int>>, asOf: Option<int>)
    ensures Query(ids, asOf).Success? && Query(ids, asOf).value.RunQuery? <==> ids.Some? && |ids.value| > 0
  {
  }
}
