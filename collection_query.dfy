/**
 * Argument handling of `getCollection` (src/handlers/getCollection.ts): which
 * calls throw before any request is made, how the `limit` argument is defaulted
 * and clamped, and which selector (contract id or name) the request uses. The
 * request itself is a foreign call; its answer is a parameter.
 */
module CollectionQuery {
  import opened Wrappers

  /** The `limit` argument, typed `number | string | boolean` and optional. */
  datatype LimitArg = NoLimit | Number(n: int) | Text(s: string) | Flag(b: bool)

  /** `{ id: contractAddress }` or `{ name: name }`. */
  datatype Selector = ById(id: string) | ByName(name: string)

  /** The normalised request sent to the collections endpoint. */
  datatype Query = Query(selector: Selector, limit: int, includeTopBid: bool)

  /** One element of the returned `collections` array (only the fields the bot reads). */
  datatype CollectionInfo = CollectionInfo(name: Option<string>, image: Option<string>)

  /**
   * What the collections endpoint does with a query: the call rejects (network,
   * auth, or a response without `data`), or it resolves and `data.collections`
   * is read, which may be `undefined`.
   */
  datatype FetchResult = FetchRejected | Fetched(collections: Option<seq<CollectionInfo>>)

  /** What `getCollection` does for its caller: throw, or return `collections`. */
  datatype CollectionResult = Threw | Returned(collections: Option<seq<CollectionInfo>>)

  const DefaultLimitValue := 5
  const MinLimit := 1
  const MaxLimit := 20

  /** `typeof limit !== "number" ? 5 : limit` */
  function DefaultLimit(limit: LimitArg): (n: int)
    ensures limit.Number? ==> n == limit.n
    ensures !limit.Number? ==> n == DefaultLimitValue
  {
    if limit.Number? then limit.n else DefaultLimitValue
  }

  /** `Math.min(Math.max(limit, 1), 20)` on an integer limit. */
  function ClampLimit(n: int): (r: int)
    ensures MinLimit <= r <= MaxLimit
    ensures MinLimit <= n <= MaxLimit ==> r == n
    ensures n < MinLimit ==> r == MinLimit
    ensures n > MaxLimit ==> r == MaxLimit
  {
    var atLeastOne := if n < MinLimit then MinLimit else n;
    if atLeastOne > MaxLimit then MaxLimit else atLeastOne
  }

  /** Clamping an already clamped limit changes nothing. */
  lemma ClampIdempotent(n: int)
    ensures ClampLimit(ClampLimit(n)) == ClampLimit(n)
  {
  }

  /**
   * Everything `getCollection` does before its request: throw (`None`) when
   * neither a name nor a contract address is given, otherwise the query with the
   * defaulted and clamped limit and the contract address preferred over the name.
   */
  function Normalise(name: Option<string>, contractAddress: Option<string>,
                     limit: LimitArg, includeTopBid: bool): (q: Option<Query>)
    ensures q.None? <==> !Truthy(name) && !Truthy(contractAddress)
    ensures q.Some? ==> MinLimit <= q.value.limit <= MaxLimit
    ensures q.Some? && !limit.Number? ==> q.value.limit == DefaultLimitValue
    ensures q.Some? && limit.Number? && MinLimit <= limit.n <= MaxLimit ==> q.value.limit == limit.n
    ensures q.Some? && limit.Number? && limit.n < MinLimit ==> q.value.limit == MinLimit
    ensures q.Some? && limit.Number? && limit.n > MaxLimit ==> q.value.limit == MaxLimit
    ensures q.Some? ==> q.value.includeTopBid == includeTopBid
    ensures Truthy(contractAddress) ==> q.Some? && q.value.selector == ById(contractAddress.value)
    ensures !Truthy(contractAddress) && Truthy(name) ==> q.Some? && q.value.selector == ByName(name.value)
  {
    if !Truthy(name) && !Truthy(contractAddress) then None
    else
      var n := ClampLimit(DefaultLimit(limit));
      var selector := if Truthy(contractAddress) then ById(contractAddress.value) else ByName(name.value);
      Some(Query(selector, n, includeTopBid))
  }

  /**
   * `getCollection(name, contractAddress, limit, includeTopBid)` where `fetch`
   * says how the endpoint answers a query. Every failure, of the arguments or of
   * the request, surfaces as a thrown error; a returned value is always what the
   * endpoint answered to the normalised query.
   */
  function GetCollection(name: Option<string>, contractAddress: Option<string>, limit: LimitArg,
                         includeTopBid: bool, fetch: Query -> FetchResult): (r: CollectionResult)
    ensures !Truthy(name) && !Truthy(contractAddress) ==> r == Threw
    ensures r.Returned? ==>
      var q := Normalise(name, contractAddress, limit, includeTopBid);
      q.Some? && fetch(q.value) == Fetched(r.collections)
    ensures r == Threw ==>
      var q := Normalise(name, contractAddress, limit, includeTopBid);
      q.None? || fetch(q.value) == FetchRejected
  {
    match Normalise(name, contractAddress, limit, includeTopBid)
    case None => Threw
    case Some(q) =>
      match fetch(q)
      case FetchRejected => Threw
      case Fetched(cs) => Returned(cs)
  }
}
