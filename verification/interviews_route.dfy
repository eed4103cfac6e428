/**
 * The HTTP endpoint `GET /api/interviews?userId=…`: the caller's most recent
 * interview, as a list of zero or one items.
 */
module InterviewsRoute {
  import opened Wrappers
  import opened Seqs
  import opened Types
  import GeneralAction

  datatype Body = ErrorBody(error: string) | Items(items: seq<Doc>)

  datatype Response = Response(status: int, body: Body)

  const MissingUserId: Response := Response(400, ErrorBody("userId is required"))
  const StoreFailure: Response := Response(500, ErrorBody("Failed to fetch interviews"))

  /**
   * `GET`: `userIdParam` is the query parameter (none when absent);
   * `collection` is the `interviews` collection as the store lists it, or none
   * when the query fails. A missing or empty `userId` is answered before the
   * store is consulted.
   */
  function Get(userIdParam: Option<string>, collection: Option<seq<Doc>>): (r: Response)
    ensures (userIdParam.None? || userIdParam.value == "") <==> r == MissingUserId
    ensures userIdParam.Some? && userIdParam.value != "" && collection.None? ==> r == StoreFailure
    ensures r.status == 200 <==> r.body.Items?
    ensures r.body.Items? ==> |r.body.items| <= 1
  {
    if userIdParam.None? || userIdParam.value == "" then MissingUserId
    else if collection.None? then StoreFailure
    else Response(200, Items(Take(GeneralAction.GetInterviewsByUserId(collection.value, userIdParam.value), 1)))
  }

  /** Without a `userId` the answer does not depend on the store at all. */
  lemma MissingUserIdIgnoresStore(userIdParam: Option<string>, c1: Option<seq<Doc>>, c2: Option<seq<Doc>>)
    requires userIdParam.None? || userIdParam.value == ""
    ensures Get(userIdParam, c1) == Get(userIdParam, c2) == MissingUserId
  {
  }

  /**
   * With a `userId` and a working store, the list is non-empty exactly when
   * the user owns an interview, and its item is one of the user's records with
   * the greatest `createdAt`.
   */
  lemma GetReturnsLatest(userId: string, collection: seq<Doc>)
    requires userId != ""
    ensures var r := Get(Some(userId), Some(collection));
            && r.status == 200
            && (|r.body.items| == 1 <==> exists d :: d in collection && d.data.userId == userId)
            && (|r.body.items| == 1 ==>
                  var latest := r.body.items[0];
                  && latest in collection
                  && latest.data.userId == userId
                  && forall d :: d in collection && d.data.userId == userId ==> d.data.createdAt <= latest.data.createdAt)
  {
    var all := GeneralAction.GetInterviewsByUserId(collection, userId);
    GeneralAction.GetInterviewsByUserIdSpec(collection, userId);
    if exists d :: d in collection && d.data.userId == userId {
      var d :| d in collection && d.data.userId == userId;
      assert d in all;
    }
    if |all| > 0 {
      assert all[0] in all;
      forall d | d in collection && d.data.userId == userId
        ensures d.data.createdAt <= all[0].data.createdAt
      {
        assert d in all;
        var k :| 0 <= k < |all| && all[k] == d;
        if k > 0 {
          assert all[0].data.createdAt >= all[k].data.createdAt;
        }
      }
    }
  }
}
