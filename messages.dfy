/**
  Rows of the chat's `messages` table as the panel holds them, the newest-first
  order it keeps them in, and the two list merges it performs.
 */
module Messages {

  datatype Option<T> = None | Some(value: T)

  /** A server-assigned `created_at`; only its order is used. */
  type Timestamp = int

  /** One row of the table. `id` is assigned by the store and never inspected. */
  datatype Message = Message(id: int, name: string, content: string, createdAt: Timestamp)

  /** Index 0 is the newest row: every entry is at least as new as every later one. */
  predicate NewestFirst(s: seq<Message>)
  {
    forall i, j :: 0 <= i < j < |s| ==> s[i].createdAt >= s[j].createdAt
  }

  /** Every row of `s` was created strictly before `t`. */
  predicate OlderThan(s: seq<Message>, t: Timestamp)
  {
    forall i :: 0 <= i < |s| ==> s[i].createdAt < t
  }

  function Last(s: seq<Message>): Message
    requires s != []
  {
    s[|s| - 1]
  }

  /** `[msg, ...prev]`: a live insert goes in front of everything held. */
  function Prepend(msg: Message, prev: seq<Message>): (r: seq<Message>)
    ensures |r| == |prev| + 1
    ensures r[0] == msg
    ensures forall i :: 0 <= i < |prev| ==> r[i + 1] == prev[i]
    ensures prev != [] ==> Last(r) == Last(prev)
  {
    [msg] + prev
  }

  /** `[...prev, ...page]`: an older page goes behind everything held. */
  function Append(prev: seq<Message>, page: seq<Message>): (r: seq<Message>)
    ensures |r| == |prev| + |page|
    ensures forall i :: 0 <= i < |prev| ==> r[i] == prev[i]
    ensures forall j :: 0 <= j < |page| ==> r[|prev| + j] == page[j]
    ensures page != [] ==> Last(r) == Last(page)
    ensures page == [] ==> r == prev
  {
    prev + page
  }

  /** A live row no older than the current head keeps the list newest-first. */
  lemma PrependKeepsNewestFirst(msg: Message, prev: seq<Message>)
    requires NewestFirst(prev)
    requires prev != [] ==> msg.createdAt >= prev[0].createdAt
    ensures NewestFirst(Prepend(msg, prev))
  {
    var r := Prepend(msg, prev);
    forall i, j | 0 <= i < j < |r| ensures r[i].createdAt >= r[j].createdAt {
      if i > 0 {
        assert r[i] == prev[i - 1] && r[j] == prev[j - 1];
      } else {
        assert r[j] == prev[j - 1];
      }
    }
  }

  /**
    A newest-first page whose rows are all older than the last row held keeps
    the list newest-first when it is appended.
   */
  lemma AppendKeepsNewestFirst(prev: seq<Message>, page: seq<Message>)
    requires NewestFirst(prev) && NewestFirst(page)
    requires prev != [] ==> OlderThan(page, Last(prev).createdAt)
    ensures NewestFirst(Append(prev, page))
  {
    var r := prev + page;
    var n := |prev|;
    forall i, j | 0 <= i < j < |r| ensures r[i].createdAt >= r[j].createdAt {
      if j < n {
        assert r[i] == prev[i] && r[j] == prev[j];
      } else if i >= n {
        assert r[i] == page[i - n] && r[j] == page[j - n];
      } else {
        OlderAcrossSeam(prev, page, i, j - n);
        assert r[i] == prev[i] && r[j] == page[j - n];
      }
    }
    assert NewestFirst(r);
  }

  lemma OlderAcrossSeam(prev: seq<Message>, page: seq<Message>, i: nat, k: nat)
    requires NewestFirst(prev) && i < |prev| && k < |page|
    requires OlderThan(page, Last(prev).createdAt)
    ensures prev[i].createdAt > page[k].createdAt
  {
    if i < |prev| - 1 {
      assert prev[i].createdAt >= prev[|prev| - 1].createdAt;
    }
  }
}
