/**
 * Shared vocabulary of the backend model: optional values, the errors the
 * services raise, and the skip/take/ceil arithmetic that every paginated
 * query repeats.
 */
module Common {

  datatype Option<T> = None | Some(value: T)

  /**
   * The failures a request can end in.
   *  - NotFound, Forbidden, Conflict, Unauthorized: the NestJS exceptions a
   *    service throws on purpose, with their message.
   *  - MissingRecord: Prisma's "record to update/delete does not exist"
   *    (thrown by `update`/`delete` on a key that has no row).
   *  - InvalidQuery: Prisma refusing the query arguments (a negative `skip`).
   *  - InvalidInput: a value the database cannot store (an unparseable date).
   */
  datatype Error =
    | NotFound(message: string)
    | Forbidden(message: string)
    | Conflict(message: string)
    | Unauthorized(message: string)
    | MissingRecord
    | InvalidQuery
    | InvalidInput

  datatype Result<T> = Ok(value: T) | Err(error: Error)

  function Min(a: int, b: int): int { if a <= b then a else b }

  function Max(a: int, b: int): int { if a >= b then a else b }

  /** `Math.ceil(total / limit)` for a positive limit: the fewest pages of
      `limit` items that hold `total` items. */
  function CeilDiv(total: nat, limit: int): (pages: nat)
    requires limit >= 1
    ensures pages * limit >= total
    ensures pages == 0 || (pages - 1) * limit < total
  {
    var q := (total + limit - 1) / limit;
    assert q * limit + (total + limit - 1) % limit == total + limit - 1;
    q
  }

  /** Prisma's `skip: (page - 1) * limit` for a page number. */
  function Skip(page: int, limit: int): int { (page - 1) * limit }

  /** The rows Prisma's `skip`/`take` returns: at most `take` rows, starting
      at position `skip`. */
  function Window<T>(xs: seq<T>, skip: nat, take: nat): (r: seq<T>)
    ensures |r| <= take
    ensures skip + |r| <= |xs| || r == []
    ensures |r| == Min(take, Max(0, |xs| - skip))
    ensures forall i :: 0 <= i < |r| ==> r[i] == xs[skip + i]
  {
    if skip >= |xs| then [] else xs[skip..Min(skip + take, |xs|)]
  }

  /** The rows of page `page` when `limit` rows make a page, or the error
      Prisma raises for the negative `skip` a page below 1 produces. */
  function PageOf<T>(xs: seq<T>, page: int, limit: int): (r: Result<seq<T>>)
    requires limit >= 1
    ensures r.Err? <==> page < 1
    ensures r.Err? ==> r.error == InvalidQuery
    ensures r.Ok? ==> |r.value| <= limit
    ensures r.Ok? ==> forall i :: 0 <= i < |r.value| ==>
                        (page - 1) * limit + i < |xs| && r.value[i] == xs[(page - 1) * limit + i]
  {
    var skip := Skip(page, limit);
    if skip < 0 then Err(InvalidQuery) else Ok(Window(xs, skip, limit))
  }
}
