/**
 * `salePoll` (src/handlers/salesPoll.ts) as it runs: the persisted cursor and
 * the channel's messages are fields that one call of `Poll` updates step by
 * step. Each `return` inside the `try` block, and each point where the source
 * throws into its catch-all, is a `return` here.
 */
module SalesPoll {
  import opened Wrappers
  import CollectionQuery
  import opened SaleFeed

  /**
   * The checks the loop body of `salePoll` makes on the event at index `i`
   * before it sends: each `continue` is a `Skip`, each point that throws is
   * `Abort`, and reaching `channel.send` is `Announce`.
   */
  method CheckEvent(sales: seq<SaleRecord>, i: nat, o: Services) returns (step: Step)
    requires i < |sales|
    ensures step == Steps(sales, o)[i]
  {
    StepAt(sales, o, i);
    var s := sales[i];
    if !Truthy(s.orderSource) {
      return Skip(MissingSource);
    }
    var name := TokenName(s);
    var image := TokenImage(s);
    if !Truthy(name) || !Truthy(image) {
      return Skip(MissingTokenMedia);
    }
    var collection := CollectionQuery.GetCollection(None, TokenContract(s), CollectionQuery.Number(1), false, o.lookup(i));
    if collection.Threw? {
      return Abort;
    }
    if collection.collections.None? {
      // `collection?.[0].image` is undefined
      return Skip(MissingCollectionData);
    }
    var cs := collection.collections.value;
    if |cs| == 0 {
      // `collection[0].image` on an empty array throws
      return Abort;
    }
    if !Truthy(cs[0].image) || !Truthy(cs[0].name) {
      return Skip(MissingCollectionData);
    }
    if !o.thumbnail(i) {
      // `thumbnail.name` on a null handle throws
      return Abort;
    }
    return Announce;
  }

  class SalePoller {
    /** The value stored under the key "saleorderid". */
    var cursor: Option<string>
    /** The messages sent to the sales channel so far, oldest first. */
    var outbox: seq<Notice>

    constructor (stored: Option<string>)
      ensures cursor == stored && outbox == []
    {
      cursor := stored;
      outbox := [];
    }

    /**
     * One call of `salePoll`. The new cursor and the messages sent are those
     * of `SaleFeed.PollCycle`.
     */
    method Poll(g: Guards, response: SalesResponse, o: Services)
      modifies this
      ensures cursor == PollCycle(g, old(cursor), response, o).cursor
      ensures outbox == old(outbox) + Messages(g, old(cursor), response, o)
    {
      if !g.salesAlertsEnabled || (g.contracts.Some? && |g.contracts.value| <= 0) {
        SilentCycles(g, cursor, response, o);
        return;
      }
      if g.channel == Undefined {
        SilentCycles(g, cursor, response, o);
        return;
      } else if g.channel != GuildText {
        SilentCycles(g, cursor, response, o);
        return;
      }
      // From here on, anything that throws is caught at the end of the cycle.
      if response.FetchFailed? {
        // the request threw
        SilentCycles(g, cursor, response, o);
        return;
      }
      if response.NoSales? {
        SilentCycles(g, cursor, response, o);
        return;
      }
      var sales := response.batch;
      var cachedId := cursor;
      if |sales| == 0 {
        // `sales[0].saleId` on an empty array throws
        SilentCycles(g, cursor, response, o);
        return;
      }
      if !Truthy(sales[0].saleId) {
        SilentCycles(g, cursor, response, o);
        return;
      }
      var head := sales[0].saleId.value;
      if !Truthy(cachedId) {
        ColdStart(g, cursor, sales, o);
        outbox := outbox + [RestartNotice];
        cursor := Some(head);
        return;
      }
      if head == cachedId.value {
        SilentCycles(g, cursor, response, o);
        return;
      }

      LoopCycle(g, cachedId, sales, o);
      var cachedListingIndex := FindIndex(sales, cachedId.value) - 1;
      if cachedListingIndex < 0 {
        cursor := None;
      }
      var completed := AnnounceNewer(sales, cachedListingIndex, o);
      if !completed {
        // an event threw: the cursor is not written
        return;
      }
      cursor := Some(head);
    }

    /**
     * The loop `for (let i = hi; i >= 0; i--)` of `salePoll`: announces the
     * events from index `hi` down to 0, skipping incomplete ones; `completed`
     * is false when an event threw, which ends the cycle with the notices
     * already sent left in place.
     */
    method AnnounceNewer(sales: seq<SaleRecord>, hi: int, o: Services) returns (completed: bool)
      requires hi < |sales|
      modifies this`outbox
      ensures completed == Emit(Steps(sales, o), hi).completed
      ensures outbox == old(outbox) + Notices(sales, Emit(Steps(sales, o), hi).announced)
    {
      ghost var steps := Steps(sales, o);
      ghost var sent: seq<nat> := [];
      var i := hi;
      while i >= 0
        invariant i == hi || -1 <= i < hi
        invariant forall m :: 0 <= m < |sent| ==> sent[m] < |sales|
        invariant Emit(steps, hi).announced == sent + Emit(steps, i).announced
        invariant Emit(steps, hi).completed == Emit(steps, i).completed
        invariant outbox == old(outbox) + Notices(sales, sent)
      {
        var step := CheckEvent(sales, i, o);
        EmitStep(steps, i, sent);
        if step == Abort {
          return false;
        }
        if step == Announce {
          NoticesAppend(sales, sent, i);
          outbox := outbox + [NoticeFor(sales[i])];
          sent := sent + [i];
        }
        i := i - 1;
      }
      return true;
    }
  }
}
