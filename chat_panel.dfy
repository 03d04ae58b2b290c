/**
  The chat panel's state and how each of its handlers changes it, as pure
  transitions. A backend call is not made here: its outcome is an input of
  the transition that consumes it.
 */
module ChatPanel {
  import opened Messages
  import opened Composer

  /** Rows requested per page (`PAGE_SIZE`). */
  const PageSize: nat := 20

  /** The `{ data, error }` pair a `select` resolves to. */
  datatype FetchResult = FetchResult(data: Option<seq<Message>>, error: Option<string>)

  /** The `{ data, error }` pair an `insert(...).select().single()` resolves to. */
  datatype InsertResult = InsertResult(data: Option<Message>, error: Option<string>)

  /** `!error && data`: the only outcome a handler acts on. */
  predicate Fetched(res: FetchResult)
  {
    res.error.None? && res.data.Some?
  }

  predicate Inserted(res: InsertResult)
  {
    res.error.None? && res.data.Some?
  }

  /**
    The component's state: panel visibility, the composer's two fields, the
    newest-first list, the in-flight flag of backward paging and the paging
    cursor (`None` once an older page came back empty).
   */
  datatype Panel = Panel(
    open: bool,
    name: string,
    content: string,
    messages: seq<Message>,
    loadingMore: bool,
    oldestAt: Option<Timestamp>)

  /** The state the component mounts with. */
  const Initial: Panel := Panel(false, "", "", [], false, None)

  /** The cursor after a page: the `created_at` of its last row, if it has one. */
  function CursorAfter(page: seq<Message>, cursor: Option<Timestamp>): Option<Timestamp>
  {
    if page != [] then Some(Last(page).createdAt) else cursor
  }

  /** `loadLatest` completing: the newest page replaces the list. */
  function AfterLatestPage(p: Panel, res: FetchResult): Panel
  {
    if Fetched(res) then
      p.(messages := res.data.value, oldestAt := CursorAfter(res.data.value, p.oldestAt))
    else
      p
  }

  /** Whether `loadMore` gets past its guard (`loadingMore || !oldestAt`). */
  predicate MayLoadMore(p: Panel)
  {
    !p.loadingMore && p.oldestAt.Some?
  }

  /** The bound of the backward fetch `loadMore` issues, or `None` when it returns early. */
  function LoadMoreRequest(p: Panel): Option<Timestamp>
  {
    if MayLoadMore(p) then p.oldestAt else None
  }

  /** `loadMore` up to its `await`: past the guard it raises the in-flight flag. */
  function AfterLoadMoreStart(p: Panel): Panel
  {
    if MayLoadMore(p) then p.(loadingMore := true) else p
  }

  /** `loadMore` after its `await`: an older page is appended and the flag is cleared. */
  function AfterLoadMoreFinish(p: Panel, res: FetchResult): Panel
  {
    var q := if Fetched(res) then
      p.(messages := Append(p.messages, res.data.value),
         oldestAt := if res.data.value != [] then Some(Last(res.data.value).createdAt) else None)
    else
      p;
    q.(loadingMore := false)
  }

  /** One whole `loadMore` call taking `res` as its fetch's outcome. */
  function AfterLoadMore(p: Panel, res: FetchResult): Panel
  {
    if MayLoadMore(p) then AfterLoadMoreFinish(AfterLoadMoreStart(p), res) else p
  }

  /** The realtime INSERT handler. */
  function AfterLiveInsert(p: Panel, msg: Message): Panel
  {
    p.(messages := Prepend(msg, p.messages))
  }

  /** `handleSend` taking `res` as its insert's outcome; a blank draft is never sent. */
  function AfterSend(p: Panel, res: InsertResult): Panel
  {
    if Compose(p.name, p.content).Some? && Inserted(res) then p.(content := "") else p
  }

  function AfterToggle(p: Panel): Panel
  {
    p.(open := !p.open)
  }

  /** Everything that can happen to the panel, each handler taken as one step. */
  datatype Event =
    | LatestPage(res: FetchResult)
    | OlderPage(res: FetchResult)
    | LiveRow(msg: Message)
    | Send(sent: InsertResult)
    | Toggle
    | NameTyped(name: string)
    | ContentTyped(content: string)

  function Step(p: Panel, e: Event): Panel
  {
    match e
    case LatestPage(res) => AfterLatestPage(p, res)
    case OlderPage(res) => AfterLoadMore(p, res)
    case LiveRow(msg) => AfterLiveInsert(p, msg)
    case Send(res) => AfterSend(p, res)
    case Toggle => AfterToggle(p)
    case NameTyped(v) => p.(name := v)
    case ContentTyped(v) => p.(content := v)
  }

  function Run(p: Panel, es: seq<Event>): Panel
    decreases |es|
  {
    if es == [] then p else Run(Step(p, es[0]), es[1..])
  }

  // ---------------------------------------------------------------------------
  // The live insert

  /** A live row lands at index 0; everything held moves up one place, in order; nothing else changes. */
  lemma LiveInsertPrepends(p: Panel, msg: Message)
    ensures var q := AfterLiveInsert(p, msg);
            && |q.messages| == |p.messages| + 1 && q.messages[0] == msg
            && q.messages[1..] == p.messages
            && q.(messages := p.messages) == p
  {
    var r := AfterLiveInsert(p, msg).messages;
    assert r[1..] == p.messages by {
      forall i | 0 <= i < |p.messages| ensures r[1..][i] == p.messages[i] {
        assert r[i + 1] == p.messages[i];
      }
    }
  }

  // ---------------------------------------------------------------------------
  // Backward paging

  /** `loadMore` returns early, issuing no fetch and changing nothing, exactly when a fetch is in flight or the cursor is null. */
  lemma LoadMoreGuard(p: Panel, res: FetchResult)
    ensures LoadMoreRequest(p).None? <==> (p.loadingMore || p.oldestAt.None?)
    ensures LoadMoreRequest(p).Some? ==> LoadMoreRequest(p) == p.oldestAt
    ensures LoadMoreRequest(p).None? ==> AfterLoadMore(p, res) == p
  {
  }

  /** While a fetch is in flight, a second `loadMore` is ignored. */
  lemma LoadMoreInFlightIgnored(p: Panel)
    requires LoadMoreRequest(p).Some?
    ensures AfterLoadMoreStart(p).loadingMore
    ensures LoadMoreRequest(AfterLoadMoreStart(p)).None?
    ensures AfterLoadMoreStart(AfterLoadMoreStart(p)) == AfterLoadMoreStart(p)
  {
  }

  /**
    A fetched older page is appended: every row held keeps its index, the page
    follows in its own order, and the cursor moves to the page's last row, or
    becomes null when the page is empty. Nothing else changes.
   */
  lemma LoadMoreAppends(p: Panel, res: FetchResult)
    requires MayLoadMore(p) && Fetched(res)
    ensures var q := AfterLoadMore(p, res); var page := res.data.value;
            && |q.messages| == |p.messages| + |page|
            && q.messages[..|p.messages|] == p.messages
            && q.messages[|p.messages|..] == page
            && (page != [] ==> q.oldestAt == Some(page[|page| - 1].createdAt))
            && (page == [] ==> q.oldestAt.None?)
            && !q.loadingMore
            && q.(messages := p.messages, oldestAt := p.oldestAt) == p
  {
    var q := AfterLoadMore(p, res);
    var page := res.data.value;
    var n := |p.messages|;
    assert q.messages[..n] == p.messages by {
      forall i | 0 <= i < n ensures q.messages[..n][i] == p.messages[i] {
        assert q.messages[i] == p.messages[i];
      }
    }
    assert q.messages[n..] == page by {
      forall j | 0 <= j < |page| ensures q.messages[n..][j] == page[j] {
        assert q.messages[n + j] == page[j];
      }
    }
  }

  /** An error, or a missing `data`, leaves the list and the cursor as they were, and the flag raised for the fetch is lowered again. */
  lemma LoadMoreFailureKeepsState(p: Panel, res: FetchResult)
    requires MayLoadMore(p) && !Fetched(res)
    ensures AfterLoadMore(p, res) == p
  {
  }

  /** Whatever the outcome, a completed fetch leaves the in-flight flag down. */
  lemma LoadMoreFinishClearsFlag(p: Panel, res: FetchResult)
    ensures !AfterLoadMoreFinish(p, res).loadingMore
    ensures !AfterLoadMore(p, res).loadingMore || p.loadingMore
  {
  }

  /** Paging never drops or reorders a row held: the old list is a prefix of the new one. */
  lemma LoadMoreKeepsPrefix(p: Panel, res: FetchResult)
    ensures p.messages <= AfterLoadMore(p, res).messages
  {
    if MayLoadMore(p) && Fetched(res) {
      LoadMoreAppends(p, res);
    }
  }

  /** The two halves of `loadMore`, run back to back, are the whole call. */
  lemma LoadMoreIsStartThenFinish(p: Panel, res: FetchResult)
    requires LoadMoreRequest(p).Some?
    ensures AfterLoadMore(p, res) == AfterLoadMoreFinish(AfterLoadMoreStart(p), res)
  {
  }

  // ---------------------------------------------------------------------------
  // Exhaustion

  /** The only step that can bring a null cursor back: a non-empty newest page. */
  predicate RevivesCursor(e: Event)
  {
    e.LatestPage? && Fetched(e.res) && e.res.data.value != []
  }

  /** A null cursor stays null through any run that has no non-empty newest page. */
  lemma {:induction false} ExhaustedStaysExhausted(p: Panel, es: seq<Event>)
    requires p.oldestAt.None?
    requires forall i :: 0 <= i < |es| ==> !RevivesCursor(es[i])
    ensures Run(p, es).oldestAt.None?
    decreases |es|
  {
    if es != [] {
      var q := Step(p, es[0]);
      assert q.oldestAt.None?;
      assert forall i :: 0 <= i < |es[1..]| ==> es[1..][i] == es[i + 1];
      ExhaustedStaysExhausted(q, es[1..]);
    }
  }

  /** So once an older page came back empty, every later `loadMore` of such a run is a no-op. */
  lemma ExhaustedLoadMoreIsNoOp(p: Panel, es: seq<Event>, res: FetchResult)
    requires p.oldestAt.None?
    requires forall i :: 0 <= i < |es| ==> !RevivesCursor(es[i])
    ensures LoadMoreRequest(Run(p, es)).None?
    ensures Step(Run(p, es), OlderPage(res)) == Run(p, es)
  {
    ExhaustedStaysExhausted(p, es);
  }

  /**
    From a set cursor, the one step that nulls it is a `loadMore` that passes
    its guard and gets an empty page back; a short page, an error or any other
    handler leaves it set.
   */
  lemma OnlyEmptyOlderPageNullsCursor(p: Panel, e: Event)
    requires p.oldestAt.Some?
    ensures Step(p, e).oldestAt.None? <==>
              (e.OlderPage? && MayLoadMore(p) && Fetched(e.res) && e.res.data.value == [])
  {
  }

  // ---------------------------------------------------------------------------
  // The newest page

  /**
    A fetched newest page replaces the list; the cursor moves to its last row
    only when it has one and is left alone otherwise; an error changes nothing.
    Nothing but the list and the cursor changes.
   */
  lemma LatestPageReplaces(p: Panel, res: FetchResult)
    ensures var q := AfterLatestPage(p, res);
            && (Fetched(res) ==> q.messages == res.data.value)
            && (Fetched(res) && res.data.value != [] ==>
                  q.oldestAt == Some(res.data.value[|res.data.value| - 1].createdAt))
            && (Fetched(res) && res.data.value == [] ==> q.oldestAt == p.oldestAt)
            && (!Fetched(res) ==> q == p)
            && q.(messages := p.messages, oldestAt := p.oldestAt) == p
  {
  }

  // ---------------------------------------------------------------------------
  // Order and cursor agreement

  /** What a well-behaved store returns for a page: at most `PageSize` rows, newest first. */
  predicate IsPage(page: seq<Message>)
  {
    |page| <= PageSize && NewestFirst(page)
  }

  /** The list is newest-first and a non-null cursor is the `created_at` of its last row. */
  predicate Coherent(p: Panel)
  {
    && NewestFirst(p.messages)
    && (p.oldestAt.Some? ==> p.messages != [] && p.oldestAt.value == Last(p.messages).createdAt)
  }

  /**
    What the store is assumed to deliver at each step: pages in descending
    `created_at` order, an older page holding only rows strictly older than the
    cursor it was asked for, and a live row no older than the current head.
    An empty newest page is assumed to come only while the cursor is null (the
    newest page is fetched once, on mount).
   */
  predicate Plausible(p: Panel, e: Event)
  {
    match e
    case LatestPage(res) =>
      Fetched(res) ==> IsPage(res.data.value) && (res.data.value == [] ==> p.oldestAt.None?)
    case OlderPage(res) =>
      MayLoadMore(p) && Fetched(res) ==>
        IsPage(res.data.value) && OlderThan(res.data.value, p.oldestAt.value)
    case LiveRow(msg) =>
      p.messages != [] ==> msg.createdAt >= p.messages[0].createdAt
    case _ => true
  }

  predicate PlausibleRun(p: Panel, es: seq<Event>)
    decreases |es|
  {
    es == [] || (Plausible(p, es[0]) && PlausibleRun(Step(p, es[0]), es[1..]))
  }

  /** Each handler keeps the list newest-first and the cursor on its last row. */
  lemma StepKeepsCoherent(p: Panel, e: Event)
    requires Coherent(p) && Plausible(p, e)
    ensures Coherent(Step(p, e))
  {
    match e
    case LatestPage(res) =>
    case OlderPage(res) =>
      if MayLoadMore(p) && Fetched(res) {
        AppendKeepsNewestFirst(p.messages, res.data.value);
      }
    case LiveRow(msg) =>
      PrependKeepsNewestFirst(msg, p.messages);
    case _ =>
  }

  /** From mount on, under a well-behaved store, the list stays newest-first and the cursor on its last row. */
  lemma {:induction false} RunKeepsCoherent(p: Panel, es: seq<Event>)
    requires Coherent(p) && PlausibleRun(p, es)
    ensures Coherent(Run(p, es))
    decreases |es|
  {
    if es != [] {
      StepKeepsCoherent(p, es[0]);
      RunKeepsCoherent(Step(p, es[0]), es[1..]);
    }
  }

  lemma InitialIsCoherent()
    ensures Coherent(Initial) && Initial.messages == [] && Initial.oldestAt.None? && !Initial.loadingMore
  {
  }

  /** A well-behaved newest page leaves at most `PageSize` rows, newest first. */
  lemma LatestPageBounded(p: Panel, res: FetchResult)
    requires Fetched(res) && IsPage(res.data.value)
    ensures |AfterLatestPage(p, res).messages| <= PageSize
    ensures NewestFirst(AfterLatestPage(p, res).messages)
  {
  }

  /**
    Without the empty-page assumption the cursor can outlive the list: an
    empty newest page after a non-empty one keeps the old cursor while the
    list is emptied.
   */
  lemma EmptyLatestPageKeepsStaleCursor(p: Panel, res: FetchResult)
    requires p.oldestAt.Some? && Fetched(res) && res.data.value == []
    ensures !Coherent(AfterLatestPage(p, res))
  {
  }

  /**
    An example of a short page not exhausting the cursor. With three rows in the store the
    newest page holds all three and the cursor stays on the oldest; one more
    `loadMore` gets an empty page and nulls it, and the one after that is a no-op.
   */
  lemma ShortPageKeepsCursor(m1: Message, m2: Message, m3: Message)
    requires m1.createdAt < m2.createdAt < m3.createdAt
    ensures var p1 := Step(Initial, LatestPage(FetchResult(Some([m3, m2, m1]), None)));
            var p2 := Step(p1, OlderPage(FetchResult(Some([]), None)));
            && p1.messages == [m3, m2, m1] && p1.oldestAt == Some(m1.createdAt)
            && p2.messages == [m3, m2, m1] && p2.oldestAt.None? && !p2.loadingMore
            && Step(p2, OlderPage(FetchResult(Some([m1]), None))) == p2
  {
  }

  // ---------------------------------------------------------------------------
  // Sending and toggling

  /**
    `handleSend`: a blank draft changes nothing; otherwise a confirmed insert
    clears the content field only, and a failed one leaves the draft as it was.
   */
  lemma SendOutcome(p: Panel, res: InsertResult)
    ensures AllWhitespace(p.content) ==> AfterSend(p, res) == p
    ensures !AllWhitespace(p.content) && Inserted(res) ==> AfterSend(p, res) == p.(content := "")
    ensures !Inserted(res) ==> AfterSend(p, res) == p
  {
  }

  /** The toggle flips `open`, touches nothing else, and undoes itself. */
  lemma ToggleFlipsOnlyOpen(p: Panel)
    ensures AfterToggle(p).open == !p.open
    ensures AfterToggle(p).(open := p.open) == p
    ensures AfterToggle(AfterToggle(p)) == p
  {
  }
}
