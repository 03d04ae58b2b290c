/**
  The `ChatWidget` component as an object: its six pieces of state are fields
  and each handler is a method that updates them in place. Every method takes
  the outcome of its backend call as a parameter and is proved against the
  matching transition of `ChatPanel`.
 */
module Widget {
  import opened Messages
  import opened Composer
  import ChatPanel

  class ChatWidget {
    var open: bool
    var name: string
    var content: string
    var messages: seq<Message>
    var loadingMore: bool
    var oldestAt: Option<Timestamp>

    /** The fields taken together as a `ChatPanel.Panel` value. */
    function Snapshot(): ChatPanel.Panel
      reads this
    {
      ChatPanel.Panel(open, name, content, messages, loadingMore, oldestAt)
    }

    /** The `useState` initial values. */
    constructor ()
      ensures Snapshot() == ChatPanel.Initial
    {
      open, name, content := false, "", "";
      messages, loadingMore, oldestAt := [], false, None;
    }

    /** `loadLatest`, given the outcome of the newest-page fetch. */
    method LoadLatest(res: ChatPanel.FetchResult)
      modifies this
      ensures Snapshot() == ChatPanel.AfterLatestPage(old(Snapshot()), res)
    {
      if res.error.None? && res.data.Some? {
        var data := res.data.value;
        messages := data;
        if |data| > 0 {
          oldestAt := Some(data[|data| - 1].createdAt);
        }
      }
    }

    /**
      `loadMore` up to its `await`: returns the cursor the backward fetch is
      bounded by, or `None` when the guard returns early and nothing is fetched.
     */
    method StartLoadMore() returns (before: Option<Timestamp>)
      modifies this
      ensures before == ChatPanel.LoadMoreRequest(old(Snapshot()))
      ensures Snapshot() == ChatPanel.AfterLoadMoreStart(old(Snapshot()))
    {
      if loadingMore || oldestAt.None? {
        return None;
      }
      loadingMore := true;
      before := oldestAt;
    }

    /** `loadMore` after its `await`, given the outcome of the backward fetch. */
    method FinishLoadMore(res: ChatPanel.FetchResult)
      modifies this
      ensures Snapshot() == ChatPanel.AfterLoadMoreFinish(old(Snapshot()), res)
      ensures !loadingMore
    {
      if res.error.None? && res.data.Some? {
        var data := res.data.value;
        messages := Append(messages, data);
        if |data| > 0 {
          oldestAt := Some(data[|data| - 1].createdAt);
        } else {
          oldestAt := None;
        }
      }
      loadingMore := false;
    }

    /** A whole `loadMore` call whose fetch, if issued, has outcome `res`. */
    method LoadMore(res: ChatPanel.FetchResult) returns (before: Option<Timestamp>)
      modifies this
      ensures before == ChatPanel.LoadMoreRequest(old(Snapshot()))
      ensures Snapshot() == ChatPanel.AfterLoadMore(old(Snapshot()), res)
    {
      before := StartLoadMore();
      if before.Some? {
        FinishLoadMore(res);
      }
    }

    /** The realtime INSERT callback. */
    method OnInsert(msg: Message)
      modifies this
      ensures Snapshot() == ChatPanel.AfterLiveInsert(old(Snapshot()), msg)
    {
      messages := Prepend(msg, messages);
    }

    /**
      `handleSend`, given the outcome of the insert: returns the payload sent,
      or `None` when the draft is blank and no insert is made.
     */
    method HandleSend(res: ChatPanel.InsertResult) returns (sent: Option<Payload>)
      modifies this
      ensures sent == Compose(old(name), old(content))
      ensures Snapshot() == ChatPanel.AfterSend(old(Snapshot()), res)
    {
      sent := Compose(name, content);
      if sent.None? {
        return;
      }
      if res.error.None? && res.data.Some? {
        content := "";
      }
    }

    /** The toggle button's click handler. */
    method Toggle()
      modifies this
      ensures Snapshot() == ChatPanel.AfterToggle(old(Snapshot()))
    {
      open := !open;
    }

    /** The name field's change handler. */
    method SetName(value: string)
      modifies this
      ensures Snapshot() == old(Snapshot()).(name := value)
    {
      name := value;
    }

    /** The content field's change handler. */
    method SetContent(value: string)
      modifies this
      ensures Snapshot() == old(Snapshot()).(content := value)
    {
      content := value;
    }
  }

  /**
    The paging scenario driven through the object: after the newest page of
    three rows, an empty older page nulls the cursor, and a further `loadMore`
    issues no fetch and changes nothing.
   */
  method PagingScenario(m1: Message, m2: Message, m3: Message)
    requires m1.createdAt < m2.createdAt < m3.createdAt
  {
    var w := new ChatWidget();
    w.LoadLatest(ChatPanel.FetchResult(Some([m3, m2, m1]), None));
    assert w.messages == [m3, m2, m1] && w.oldestAt == Some(m1.createdAt);
    var b1 := w.LoadMore(ChatPanel.FetchResult(Some([]), None));
    assert b1 == Some(m1.createdAt);
    assert w.oldestAt.None? && !w.loadingMore;
    var b2 := w.LoadMore(ChatPanel.FetchResult(Some([m1]), None));
    assert b2.None? && w.messages == [m3, m2, m1];
  }
}
