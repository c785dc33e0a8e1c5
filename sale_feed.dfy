/**
 * The sale-feed cursor reconciliation of `salePoll` (src/handlers/salesPoll.ts),
 * stated as functions over one poll cycle: the newest-first batch of sale
 * records, the persisted cursor (the store key "saleorderid") and the answers of
 * the outside services. `SalesPoll.SalePoller.Poll` is the step-by-step method;
 * this module says what it must compute and proves what that means.
 */
module SaleFeed {
  import opened Wrappers
  import CollectionQuery

  /** `sale.token`: only the fields the bot reads. */
  datatype Token = Token(name: Option<string>, image: Option<string>, contract: Option<string>)

  /** One element of `salesResponse.data.sales`, index 0 being the most recent. */
  datatype SaleRecord = SaleRecord(saleId: Option<string>, txHash: string,
                                   orderSource: Option<string>, token: Option<Token>)

  /** A message the bot sends to the sales channel. */
  datatype Notice =
    | RestartNotice
    | SaleNotice(txHash: string, tokenName: string, marketplace: string)

  /** The channel the bot was given: missing, a guild text channel, or another kind. */
  datatype Channel = Undefined | GuildText | OtherChannel

  /** The values the early guards of `salePoll` look at. */
  datatype Guards = Guards(salesAlertsEnabled: bool, contracts: Option<seq<string>>, channel: Channel)

  /**
   * The sales request: it throws (auth, network, no `data`), resolves with no
   * `sales`, or resolves with a batch.
   */
  datatype SalesResponse = FetchFailed | NoSales | Sales(batch: seq<SaleRecord>)

  /**
   * The answers of the services called for the event at batch index `i`: the
   * collections endpoint as seen by `getCollection`, and whether media
   * conversion of the token image produced a handle (it may give `null`).
   */
  datatype Services = Services(lookup: nat -> (CollectionQuery.Query -> CollectionQuery.FetchResult),
                               thumbnail: nat -> bool)

  /** Why an event was passed over with `continue`. */
  datatype SkipReason = MissingSource | MissingTokenMedia | MissingCollectionData

  /** What happens when the loop reaches one event. */
  datatype Step = Announce | Skip(reason: SkipReason) | Abort

  /** The events the loop went through (newest-first indices), those it announced, and whether it ran to its end. */
  datatype Progress = Progress(visited: seq<nat>, announced: seq<nat>, completed: bool)

  /** What one poll cycle leaves behind: the cursor, whether the restart notice went out, and the announced batch indices in sending order. */
  datatype Outcome = Outcome(cursor: Option<string>, restarted: bool, announced: seq<nat>)

  function TokenName(s: SaleRecord): Option<string> { if s.token.Some? then s.token.value.name else None }
  function TokenImage(s: SaleRecord): Option<string> { if s.token.Some? then s.token.value.image else None }
  function TokenContract(s: SaleRecord): Option<string> { if s.token.Some? then s.token.value.contract else None }

  /** The sale notice for a record: its title names the token, its button links the transaction, its footer names the marketplace. */
  function NoticeFor(s: SaleRecord): Notice
  {
    SaleNotice(s.txHash, if s.token.Some? && s.token.value.name.Some? then s.token.value.name.value else "",
               if s.orderSource.Some? then s.orderSource.value else "")
  }

  /**
   * What a sale notice shows: the transaction behind its button, the token
   * name in its title and the marketplace in its footer, for every record the
   * loop announces (those have a truthy order source and token name).
   */
  lemma NoticeShowsSale(s: SaleRecord)
    ensures NoticeFor(s).SaleNotice? && NoticeFor(s).txHash == s.txHash
    ensures Truthy(TokenName(s)) ==> NoticeFor(s).tokenName == TokenName(s).value
    ensures Truthy(s.orderSource) ==> NoticeFor(s).marketplace == s.orderSource.value
  {
  }

  /** The guards at the top of `salePoll`; `undefined?.length <= 0` is false, so a missing list passes. */
  function GuardsPass(g: Guards): (pass: bool)
    ensures pass ==> g.salesAlertsEnabled && g.channel == GuildText
    ensures g.contracts == Some([]) ==> !pass
    ensures g.contracts.None? ==> (pass <==> g.salesAlertsEnabled && g.channel == GuildText)
    ensures pass <==> g.salesAlertsEnabled && g.contracts != Some([]) && g.channel == GuildText
  {
    g.salesAlertsEnabled && !(g.contracts.Some? && |g.contracts.value| <= 0) && g.channel == GuildText
  }

  function BatchOf(response: SalesResponse): seq<SaleRecord>
  {
    if response.Sales? then response.batch else []
  }

  /** `getCollection(undefined, sale.token?.contract, 1, false)` as called for batch index `i`. */
  function CollectionFor(s: SaleRecord, i: nat, o: Services): CollectionQuery.CollectionResult
  {
    CollectionQuery.GetCollection(None, TokenContract(s), CollectionQuery.Number(1), false, o.lookup(i))
  }

  /**
   * One pass of the loop body for batch index `i`. A missing `orderSource`,
   * token name or image, `collections` being `undefined`, or a first collection
   * without image or name is skipped. A thrown `getCollection`, an empty
   * `collections` array (reading `[0].image` of `undefined`) and a `null`
   * thumbnail (reading its `name`) throw, which ends the cycle.
   */
  function Visit(batch: seq<SaleRecord>, i: nat, o: Services): (step: Step)
    requires i < |batch|
    ensures step == Announce ==>
      && Truthy(batch[i].orderSource) && Truthy(TokenName(batch[i])) && Truthy(TokenImage(batch[i]))
      && Truthy(TokenContract(batch[i])) && o.thumbnail(i)
  {
    var s := batch[i];
    if !Truthy(s.orderSource) then Skip(MissingSource)
    else if !Truthy(TokenName(s)) || !Truthy(TokenImage(s)) then Skip(MissingTokenMedia)
    else
      match CollectionFor(s, i, o)
      case Threw => Abort
      case Returned(None) => Skip(MissingCollectionData)
      case Returned(Some(cs)) =>
        if |cs| == 0 then Abort
        else if !Truthy(cs[0].image) || !Truthy(cs[0].name) then Skip(MissingCollectionData)
        else if !o.thumbnail(i) then Abort
        else Announce
  }

  /**
   * A record without a marketplace, token name or token image is skipped
   * before any lookup; a complete one without a token contract makes
   * `getCollection` throw. For a complete record with a contract, the answer
   * `f` of the collections endpoint decides: a rejected request or an empty
   * `collections` array throws, `collections` being `undefined` or a first
   * collection without image or name is skipped, and past those checks a
   * `null` thumbnail throws. Only a record whose every check passes is
   * announced.
   */
  lemma VisitChecks(batch: seq<SaleRecord>, i: nat, o: Services)
    requires i < |batch|
    ensures var s := batch[i];
      !Truthy(s.orderSource) ==> Visit(batch, i, o) == Skip(MissingSource)
    ensures var s := batch[i];
      Truthy(s.orderSource) && (!Truthy(TokenName(s)) || !Truthy(TokenImage(s))) ==>
        Visit(batch, i, o) == Skip(MissingTokenMedia)
    ensures var s := batch[i];
      Truthy(s.orderSource) && Truthy(TokenName(s)) && Truthy(TokenImage(s)) && !Truthy(TokenContract(s)) ==>
        Visit(batch, i, o) == Abort
    ensures var s := batch[i];
      Truthy(s.orderSource) && Truthy(TokenName(s)) && Truthy(TokenImage(s)) && Truthy(TokenContract(s)) ==>
        var f := o.lookup(i)(CollectionQuery.Query(CollectionQuery.ById(TokenContract(s).value), 1, false));
        && (f == CollectionQuery.FetchRejected ==> Visit(batch, i, o) == Abort)
        && (f == CollectionQuery.Fetched(None) ==> Visit(batch, i, o) == Skip(MissingCollectionData))
        && (f == CollectionQuery.Fetched(Some([])) ==> Visit(batch, i, o) == Abort)
        && (f.Fetched? && f.collections.Some? && |f.collections.value| > 0 &&
            (!Truthy(f.collections.value[0].image) || !Truthy(f.collections.value[0].name)) ==>
              Visit(batch, i, o) == Skip(MissingCollectionData))
        && (f.Fetched? && f.collections.Some? && |f.collections.value| > 0 &&
            Truthy(f.collections.value[0].image) && Truthy(f.collections.value[0].name) && !o.thumbnail(i) ==>
              Visit(batch, i, o) == Abort)
    ensures var s := batch[i];
      Visit(batch, i, o) == Announce <==>
        && Truthy(s.orderSource) && Truthy(TokenName(s)) && Truthy(TokenImage(s)) && Truthy(TokenContract(s))
        && var fetched := o.lookup(i)(CollectionQuery.Query(CollectionQuery.ById(TokenContract(s).value), 1, false));
           && fetched.Fetched? && fetched.collections.Some? && |fetched.collections.value| > 0
           && Truthy(fetched.collections.value[0].image) && Truthy(fetched.collections.value[0].name)
           && o.thumbnail(i)
  {
  }

  /**
   * `batch.findIndex(order => order.saleId === id)`: the first index whose
   * `saleId` is `id`, or -1.
   */
  function FindIndex(batch: seq<SaleRecord>, id: string): (k: int)
    ensures -1 <= k < |batch|
    ensures k == -1 <==> forall j :: 0 <= j < |batch| ==> batch[j].saleId != Some(id)
    ensures k >= 0 ==> batch[k].saleId == Some(id)
    ensures forall j :: 0 <= j < k ==> batch[j].saleId != Some(id)
  {
    if |batch| == 0 then -1
    else if batch[0].saleId == Some(id) then 0
    else
      var k := FindIndex(batch[1..], id);
      assert forall j :: 1 <= j < |batch| ==> batch[j] == batch[1..][j - 1];
      if k == -1 then -1 else k + 1
  }

  /** The outcome of the loop body for every index of the batch. */
  function Steps(batch: seq<SaleRecord>, o: Services): (steps: seq<Step>)
    ensures |steps| == |batch|
  {
    seq(|batch|, i requires 0 <= i < |batch| => Visit(batch, i, o))
  }

  lemma StepAt(batch: seq<SaleRecord>, o: Services, i: nat)
    requires i < |batch|
    ensures Steps(batch, o)[i] == Visit(batch, i, o)
  {
  }

  /** The number of indices in `hi, hi - 1, ..., 0` (none when `hi` is negative). */
  function Width(hi: int): nat
  {
    if hi < 0 then 0 else hi + 1
  }

  /**
   * The loop `for (let i = hi; i >= 0; i--)` over the per-event outcomes
   * `steps`: visits `hi` first and goes down to 0, announcing, skipping, or
   * stopping at the first event that throws.
   */
  function Emit(steps: seq<Step>, hi: int): (p: Progress)
    requires hi < |steps|
    decreases hi + 1
    ensures forall m :: 0 <= m < |p.announced| ==> p.announced[m] <= hi
  {
    if hi < 0 then Progress([], [], true)
    else
      match steps[hi]
      case Abort => Progress([hi], [], false)
      case Skip(_) =>
        var rest := Emit(steps, hi - 1);
        Progress([hi] + rest.visited, rest.announced, rest.completed)
      case Announce =>
        var rest := Emit(steps, hi - 1);
        Progress([hi] + rest.visited, [hi] + rest.announced, rest.completed)
  }

  /** The loop starts at `hi` and goes down one index at a time; it reaches 0 unless it stops early. */
  lemma {:induction false} EmitVisitsDownward(steps: seq<Step>, hi: int)
    requires hi < |steps|
    decreases hi + 1
    ensures var p := Emit(steps, hi);
      && (forall m :: 0 <= m < |p.visited| ==> p.visited[m] == hi - m)
      && |p.visited| <= Width(hi)
      && (p.completed ==> |p.visited| == Width(hi))
  {
    if hi >= 0 {
      EmitVisitsDownward(steps, hi - 1);
    }
  }

  /** The loop runs to its end exactly when no event in the range throws; otherwise the last event it visited threw. */
  lemma {:induction false} EmitCompletesUnlessAbort(steps: seq<Step>, hi: int)
    requires hi < |steps|
    decreases hi + 1
    ensures var p := Emit(steps, hi);
      && (p.completed <==> forall j :: 0 <= j <= hi ==> steps[j] != Abort)
      && (!p.completed ==> 0 < |p.visited| && p.visited[|p.visited| - 1] < |steps| && steps[p.visited[|p.visited| - 1]] == Abort)
  {
    if hi >= 0 {
      EmitCompletesUnlessAbort(steps, hi - 1);
      EmitVisitsDownward(steps, hi - 1);
    }
  }

  /** The loop announces only events whose visit announces, among those it visits, newest index last. */
  lemma {:induction false} EmitAnnouncesInOrder(steps: seq<Step>, hi: int)
    requires hi < |steps|
    decreases hi + 1
    ensures var p := Emit(steps, hi);
      && (forall m :: 0 <= m < |p.announced| ==> steps[p.announced[m]] == Announce)
      && (forall m, n :: 0 <= m < n < |p.announced| ==> p.announced[n] < p.announced[m])
      && |p.announced| <= |p.visited|
  {
    if hi >= 0 {
      EmitAnnouncesInOrder(steps, hi - 1);
    }
  }

  /**
   * One turn of the loop: what visiting `hi` adds after the indices `sent`
   * already announced, in front of the rest of the range.
   */
  lemma EmitStep(steps: seq<Step>, hi: nat, sent: seq<nat>)
    requires hi < |steps|
    ensures steps[hi] == Abort ==> Emit(steps, hi) == Progress([hi], [], false)
    ensures steps[hi] != Abort ==> Emit(steps, hi).completed == Emit(steps, hi - 1).completed
    ensures steps[hi] != Abort ==>
              sent + Emit(steps, hi).announced ==
              (sent + if steps[hi] == Announce then [hi] else []) + Emit(steps, hi - 1).announced
  {
  }

  /**
   * An event is announced exactly when its own visit announces and no newer
   * event in the range threw first: a skipped event never blocks the others.
   */
  lemma {:induction false} AnnouncedExactly(steps: seq<Step>, hi: int, j: nat)
    requires hi < |steps| && j <= hi
    ensures j in Emit(steps, hi).announced <==>
              steps[j] == Announce && forall i :: j < i <= hi ==> steps[i] != Abort
  {
    var p := Emit(steps, hi);
    if j == hi {
      if steps[hi] != Announce {
        assert forall m :: 0 <= m < |p.announced| ==> p.announced[m] != hi;
      }
    } else {
      var rest := Emit(steps, hi - 1);
      AnnouncedExactly(steps, hi - 1, j);
      match steps[hi]
      case Abort =>
        assert p.announced == [];
      case Skip(_) =>
        assert p.announced == rest.announced;
      case Announce =>
        assert p.announced == [hi] + rest.announced;
    }
  }

  /** One poll cycle of `salePoll`, from the guards to the final cursor write; every thrown error is caught and ends the cycle. */
  function PollCycle(g: Guards, cursor: Option<string>, response: SalesResponse, o: Services): (r: Outcome)
    ensures forall m :: 0 <= m < |r.announced| ==> r.announced[m] < |BatchOf(response)|
  {
    var idle := Outcome(cursor, false, []);
    if !GuardsPass(g) then idle
    else
      match response
      case FetchFailed => idle
      case NoSales => idle
      case Sales(batch) =>
        if |batch| == 0 || !Truthy(batch[0].saleId) then idle
        else
          var head := batch[0].saleId.value;
          if !Truthy(cursor) then Outcome(Some(head), true, [])
          else if head == cursor.value then idle
          else
            var p := Emit(Steps(batch, o), FindIndex(batch, cursor.value) - 1);
            Outcome(if p.completed then Some(head) else cursor, false, p.announced)
  }

  /** The sale notices for the given batch indices, in the same order. */
  function Notices(batch: seq<SaleRecord>, announced: seq<nat>): (ns: seq<Notice>)
    requires forall m :: 0 <= m < |announced| ==> announced[m] < |batch|
    ensures |ns| == |announced|
    ensures forall m :: 0 <= m < |ns| ==> ns[m] == NoticeFor(batch[announced[m]])
  {
    seq(|announced|, m requires 0 <= m < |announced| => NoticeFor(batch[announced[m]]))
  }

  lemma NoticesAppend(batch: seq<SaleRecord>, announced: seq<nat>, i: nat)
    requires forall m :: 0 <= m < |announced| ==> announced[m] < |batch|
    requires i < |batch|
    ensures Notices(batch, announced + [i]) == Notices(batch, announced) + [NoticeFor(batch[i])]
  {
  }

  /** Everything a poll cycle sends to the channel, in order. */
  function Messages(g: Guards, cursor: Option<string>, response: SalesResponse, o: Services): (ms: seq<Notice>)
    ensures var r := PollCycle(g, cursor, response, o);
      |ms| == (if r.restarted then 1 else 0) + |r.announced|
    ensures RestartNotice in ms <==> PollCycle(g, cursor, response, o).restarted
  {
    var r := PollCycle(g, cursor, response, o);
    (if r.restarted then [RestartNotice] else []) + Notices(BatchOf(response), r.announced)
  }

  /** The cursor the poll loads is truthy and differs from the head record's id: the cycle goes on to locate it. */
  predicate LocatesCursor(cursor: Option<string>, batch: seq<SaleRecord>)
  {
    |batch| > 0 && Truthy(batch[0].saleId) && Truthy(cursor) && batch[0].saleId != cursor
  }

  /**
   * Nothing happens when a guard fails, the fetch fails or yields no `sales`,
   * the batch is empty, the head record has no `saleId`, or the cursor already
   * equals the head record's id.
   */
  lemma SilentCycles(g: Guards, cursor: Option<string>, response: SalesResponse, o: Services)
    requires || !GuardsPass(g)
             || !response.Sales?
             || |response.batch| == 0
             || !Truthy(response.batch[0].saleId)
             || (Truthy(cursor) && response.batch[0].saleId == cursor)
    ensures PollCycle(g, cursor, response, o) == Outcome(cursor, false, [])
    ensures Messages(g, cursor, response, o) == []
  {
  }

  /** With no usable cursor, the cycle sends the restart notice alone and bookmarks the head record. */
  lemma ColdStart(g: Guards, cursor: Option<string>, batch: seq<SaleRecord>, o: Services)
    requires GuardsPass(g) && |batch| > 0 && Truthy(batch[0].saleId) && !Truthy(cursor)
    ensures PollCycle(g, cursor, Sales(batch), o) == Outcome(batch[0].saleId, true, [])
    ensures Messages(g, cursor, Sales(batch), o) == [RestartNotice]
  {
  }

  /** Past the early exits, the cycle is the loop from one below the cursor's index, and it sends only the loop's notices. */
  lemma LoopCycle(g: Guards, cursor: Option<string>, batch: seq<SaleRecord>, o: Services)
    requires GuardsPass(g) && LocatesCursor(cursor, batch)
    ensures var p := Emit(Steps(batch, o), FindIndex(batch, cursor.value) - 1);
      && PollCycle(g, cursor, Sales(batch), o) == Outcome(if p.completed then batch[0].saleId else cursor, false, p.announced)
      && Messages(g, cursor, Sales(batch), o) == Notices(batch, p.announced)
  {
    var p := Emit(Steps(batch, o), FindIndex(batch, cursor.value) - 1);
    assert [] + Notices(batch, p.announced) == Notices(batch, p.announced);
  }

  /**
   * The notices a cycle sends are those of the records it announces, one each
   * and in the same order: every such record has a truthy token name and order
   * source, and its notice shows the token name in the title, the transaction
   * behind the button and the marketplace in the footer.
   */
  lemma SentNoticesShowSales(g: Guards, cursor: Option<string>, batch: seq<SaleRecord>, o: Services)
    requires GuardsPass(g) && LocatesCursor(cursor, batch)
    ensures var r := PollCycle(g, cursor, Sales(batch), o);
      |Messages(g, cursor, Sales(batch), o)| == |r.announced|
    ensures var r := PollCycle(g, cursor, Sales(batch), o);
      var ms := Messages(g, cursor, Sales(batch), o);
      forall m :: 0 <= m < |r.announced| ==>
        var s := batch[r.announced[m]];
        && Truthy(TokenName(s)) && Truthy(s.orderSource)
        && ms[m] == SaleNotice(s.txHash, TokenName(s).value, s.orderSource.value)
  {
    LoopCycle(g, cursor, batch, o);
    var steps := Steps(batch, o);
    EmitAnnouncesInOrder(steps, FindIndex(batch, cursor.value) - 1);
    var r := PollCycle(g, cursor, Sales(batch), o);
    forall m | 0 <= m < |r.announced|
      ensures var s := batch[r.announced[m]];
        && Truthy(TokenName(s)) && Truthy(s.orderSource)
        && Messages(g, cursor, Sales(batch), o)[m] == SaleNotice(s.txHash, TokenName(s).value, s.orderSource.value)
    {
      var j := r.announced[m];
      StepAt(batch, o, j);
      NoticeShowsSale(batch[j]);
    }
  }

  /**
   * Cursor loss: a cursor found nowhere in the batch is deleted, the loop
   * range starting at -2 is empty, and the final write bookmarks the head
   * record; nothing is sent.
   */
  lemma CursorLoss(g: Guards, cursor: Option<string>, batch: seq<SaleRecord>, o: Services)
    requires GuardsPass(g) && |batch| > 0 && Truthy(batch[0].saleId) && Truthy(cursor)
    requires forall j :: 0 <= j < |batch| ==> batch[j].saleId != cursor
    ensures FindIndex(batch, cursor.value) - 1 == -2
    ensures PollCycle(g, cursor, Sales(batch), o) == Outcome(batch[0].saleId, false, [])
    ensures Messages(g, cursor, Sales(batch), o) == []
  {
    LoopCycle(g, cursor, batch, o);
  }

  /** The cursor is first found at index `k` >= 1, past every early exit. */
  predicate CursorAt(g: Guards, cursor: Option<string>, batch: seq<SaleRecord>, k: nat)
  {
    && GuardsPass(g) && |batch| > 0 && Truthy(batch[0].saleId) && Truthy(cursor)
    && 1 <= k < |batch| && batch[k].saleId == cursor
    && forall j :: 0 <= j < k ==> batch[j].saleId != cursor
  }

  /**
   * Cursor found at index `k`: the loop starts at `k - 1` and goes down one
   * index at a time, never touching an index at or above `k`, and reaches 0
   * unless an event throws.
   */
  lemma CursorFoundVisits(g: Guards, cursor: Option<string>, batch: seq<SaleRecord>, o: Services, k: nat)
    requires CursorAt(g, cursor, batch, k)
    ensures FindIndex(batch, cursor.value) - 1 == k - 1
    ensures var p := Emit(Steps(batch, o), k - 1);
      && (forall m :: 0 <= m < |p.visited| ==> p.visited[m] == k - 1 - m)
      && (p.completed ==> |p.visited| == k)
  {
    EmitVisitsDownward(Steps(batch, o), k - 1);
  }

  /**
   * Cursor found at index `k`: no restart notice, and at most `k` sale
   * notices, all for records newer than the cursor's, oldest first.
   */
  lemma CursorFoundAnnouncesNewer(g: Guards, cursor: Option<string>, batch: seq<SaleRecord>, o: Services, k: nat)
    requires CursorAt(g, cursor, batch, k)
    ensures var r := PollCycle(g, cursor, Sales(batch), o);
      && !r.restarted
      && |r.announced| <= k
      && (forall m :: 0 <= m < |r.announced| ==> r.announced[m] < k)
      && (forall m, n :: 0 <= m < n < |r.announced| ==> r.announced[n] < r.announced[m])
  {
    assert FindIndex(batch, cursor.value) == k;
    LoopCycle(g, cursor, batch, o);
    EmitVisitsDownward(Steps(batch, o), k - 1);
    EmitAnnouncesInOrder(Steps(batch, o), k - 1);
  }

  /**
   * Cursor found at index `k`: a record below `k` is announced exactly when
   * its own checks pass and no newer record below `k` threw first; a skipped
   * record does not hold back the others.
   */
  lemma CursorFoundAnnounces(g: Guards, cursor: Option<string>, batch: seq<SaleRecord>, o: Services, k: nat)
    requires CursorAt(g, cursor, batch, k)
    ensures var r := PollCycle(g, cursor, Sales(batch), o);
      var steps := Steps(batch, o);
      forall j :: 0 <= j < k ==>
        (j in r.announced <==> steps[j] == Announce && forall i :: j < i < k ==> steps[i] != Abort)
  {
    assert FindIndex(batch, cursor.value) == k;
    LoopCycle(g, cursor, batch, o);
    ghost var steps := Steps(batch, o);
    forall j | 0 <= j < k
      ensures j in Emit(steps, k - 1).announced <==> steps[j] == Announce && forall i :: j < i < k ==> steps[i] != Abort
    {
      AnnouncedExactly(steps, k - 1, j);
    }
  }

  /**
   * Cursor found at index `k`: the cursor moves to the head record exactly
   * when no record below `k` throws, whatever was skipped; otherwise it keeps
   * its value.
   */
  lemma CursorFoundAdvances(g: Guards, cursor: Option<string>, batch: seq<SaleRecord>, o: Services, k: nat)
    requires CursorAt(g, cursor, batch, k)
    ensures PollCycle(g, cursor, Sales(batch), o).cursor ==
              if forall j :: 0 <= j < k ==> Steps(batch, o)[j] != Abort then batch[0].saleId else cursor
  {
    assert FindIndex(batch, cursor.value) == k;
    LoopCycle(g, cursor, batch, o);
    EmitCompletesUnlessAbort(Steps(batch, o), k - 1);
  }

  /** A cycle either leaves the cursor as it was or bookmarks the head record of the batch it fetched. */
  lemma CursorOnlyMovesToHead(g: Guards, cursor: Option<string>, response: SalesResponse, o: Services)
    ensures var r := PollCycle(g, cursor, response, o);
      r.cursor == cursor || (response.Sales? && |response.batch| > 0 && r.cursor == response.batch[0].saleId && Truthy(r.cursor))
  {
  }

  /**
   * At most once, oldest first: the restart notice goes out only on a cold
   * start and alone; sale notices go out only when the cursor was found, for
   * records strictly newer than the cursor's record, in decreasing index order.
   */
  lemma AnnouncesOnlyNewerThanCursor(g: Guards, cursor: Option<string>, response: SalesResponse, o: Services)
    ensures var r := PollCycle(g, cursor, response, o);
      r.restarted ==> r.announced == [] && !Truthy(cursor)
    ensures var r := PollCycle(g, cursor, response, o);
      r.announced != [] ==>
        && Truthy(cursor)
        && 0 < FindIndex(BatchOf(response), cursor.value)
        && forall m :: 0 <= m < |r.announced| ==> r.announced[m] < FindIndex(BatchOf(response), cursor.value)
    ensures var r := PollCycle(g, cursor, response, o);
      forall m, n :: 0 <= m < n < |r.announced| ==> r.announced[n] < r.announced[m]
  {
    if GuardsPass(g) && response.Sales? && LocatesCursor(cursor, response.batch) {
      var batch := response.batch;
      var k := FindIndex(batch, cursor.value);
      LoopCycle(g, cursor, batch, o);
      EmitAnnouncesInOrder(Steps(batch, o), k - 1);
      if k == -1 {
        assert Emit(Steps(batch, o), k - 1).announced == [];
      }
    }
  }

  /**
   * Cursor found at index `k` and a record below `k` throws: the cursor is
   * not written. A next cycle then starts from the same cursor, and a cycle
   * is determined by its inputs, so when it fetches the same batch and gets
   * the same answers from the services it announces the same records again.
   */
  lemma AbortedCycleRepeats(g: Guards, cursor: Option<string>, batch: seq<SaleRecord>, o: Services, k: nat)
    requires CursorAt(g, cursor, batch, k)
    requires !(forall j :: 0 <= j < k ==> Steps(batch, o)[j] != Abort)
    ensures var r := PollCycle(g, cursor, Sales(batch), o);
      r.cursor == cursor && PollCycle(g, r.cursor, Sales(batch), o).announced == r.announced
  {
    CursorFoundAdvances(g, cursor, batch, o, k);
  }

  /**
   * Once a cycle has moved the cursor to the head of a batch, a later cycle
   * that fetches the same batch sends nothing and keeps the cursor. This holds
   * after a cursor loss too: the final write re-bookmarks the head, so the
   * next cycle does not cold-start again.
   */
  lemma RepeatedBatchIsSilent(g: Guards, cursor: Option<string>, batch: seq<SaleRecord>, o1: Services, o2: Services)
    requires PollCycle(g, cursor, Sales(batch), o1).cursor != cursor
    ensures var c := PollCycle(g, cursor, Sales(batch), o1).cursor;
      PollCycle(g, c, Sales(batch), o2) == Outcome(c, false, [])
  {
    CursorOnlyMovesToHead(g, cursor, Sales(batch), o1);
  }

  /**
   * When the provider's window has moved on by `newer` records since the
   * cycle that bookmarked the head of `older`, the next cycle announces only
   * records of `newer`, never one of `older`; and if none of them throws, it
   * announces every one of them whose checks pass.
   */
  lemma OnlyNewerRecordsAnnounced(g: Guards, newer: seq<SaleRecord>, older: seq<SaleRecord>, o: Services)
    requires GuardsPass(g) && |older| > 0 && Truthy(older[0].saleId)
    requires forall j :: 0 <= j < |newer| ==> newer[j].saleId != older[0].saleId
    ensures var r := PollCycle(g, older[0].saleId, Sales(newer + older), o);
      !r.restarted && forall m :: 0 <= m < |r.announced| ==> r.announced[m] < |newer|
    ensures var r := PollCycle(g, older[0].saleId, Sales(newer + older), o);
      var steps := Steps(newer + older, o);
      (|newer| > 0 && Truthy(newer[0].saleId) && forall i :: 0 <= i < |newer| ==> steps[i] != Abort) ==>
        forall j :: 0 <= j < |newer| ==> (j in r.announced <==> steps[j] == Announce)
  {
    var batch := newer + older;
    var cursor := older[0].saleId;
    assert batch[|newer|] == older[0];
    var k := FindIndex(batch, cursor.value);
    assert k == |newer|;
    if |newer| > 0 && Truthy(newer[0].saleId) {
      assert batch[0] == newer[0];
      CursorFoundAnnounces(g, cursor, batch, o, k);
    }
  }
}
