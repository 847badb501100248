/**
 Channel history as the platform pages it: `channel.history(limit, before)`
 yields, newest first, at most `limit` messages created strictly before the
 cursor `before` (all of them when there is no cursor).
 */
module History {
  import opened Wrappers
  import opened Store

  /** The history is listed newest first, with no two messages at the same time. */
  predicate NewestFirst(h: seq<Message>)
  {
    forall i, j | 0 <= i < j < |h| :: h[j].createdAt < h[i].createdAt
  }

  /** Every message was created after the epoch, so no timestamp is the "never scanned" 0. */
  predicate AfterEpoch(h: seq<Message>)
  {
    forall i | 0 <= i < |h| :: h[i].createdAt > 0
  }

  /** The messages created strictly before `t`, in history order. */
  function Older(h: seq<Message>, t: int): (r: seq<Message>)
    ensures |r| <= |h|
    ensures forall i | 0 <= i < |r| :: r[i].createdAt < t
  {
    if h == [] then []
    else if h[0].createdAt < t then [h[0]] + Older(h[1..], t)
    else Older(h[1..], t)
  }

  /** The part of the history `before` selects. */
  function Before(h: seq<Message>, before: Option<int>): (r: seq<Message>)
    ensures |r| <= |h|
    ensures before.None? ==> r == h
    ensures before.Some? ==> forall i | 0 <= i < |r| :: r[i].createdAt < before.value
  {
    match before
    case None => h
    case Some(t) => Older(h, t)
  }

  /** `Older` keeps exactly the messages of the history created before `t`, and makes up none. */
  lemma {:induction false} OlderMembers(h: seq<Message>, t: int)
    ensures forall m :: m in Older(h, t) <==> m in h && m.createdAt < t
  {
    if h != [] {
      OlderMembers(h[1..], t);
      assert h == [h[0]] + h[1..];
    }
  }

  /** A cursor selects exactly the messages of the history older than it. */
  lemma BeforeMembers(h: seq<Message>, t: int)
    ensures forall m :: m in Before(h, Some(t)) <==> m in h && m.createdAt < t
  {
    OlderMembers(h, t);
  }

  /** One page of `channel.history(limit=size, before=before)`. */
  function Page(h: seq<Message>, before: Option<int>, size: nat): (r: seq<Message>)
    ensures |r| <= size
    ensures |r| == Min(size, |Before(h, before)|)
    ensures r == Before(h, before)[..|r|]
  {
    var all := Before(h, before);
    all[..Min(size, |all|)]
  }

  /** When every message is older than `t`, `Older` keeps them all. */
  lemma {:induction false} OlderKeepsAll(h: seq<Message>, t: int)
    requires forall i | 0 <= i < |h| :: h[i].createdAt < t
    ensures Older(h, t) == h
  {
    if h != [] {
      OlderKeepsAll(h[1..], t);
      assert [h[0]] + h[1..] == h;
    }
  }

  /** Paging from the timestamp of message `k` resumes right after it. */
  lemma {:induction false} OlderThanMessage(h: seq<Message>, k: nat)
    requires NewestFirst(h) && k < |h|
    ensures Older(h, h[k].createdAt) == h[k + 1..]
  {
    var t := h[k].createdAt;
    if k == 0 {
      OlderKeepsAll(h[1..], t);
    } else {
      assert NewestFirst(h[1..]);
      OlderThanMessage(h[1..], k - 1);
      assert h[1..][k - 1] == h[k];
      assert h[1..][k..] == h[k + 1..];
    }
  }

  /** The page after the first `done` messages is the next stretch of the history. */
  lemma NextPage(h: seq<Message>, done: nat, size: nat)
    requires NewestFirst(h) && done <= |h|
    ensures var r := Page(h, if done == 0 then None else Some(h[done - 1].createdAt), size);
      r == h[done..done + Min(size, |h| - done)]
  {
    if done > 0 {
      OlderThanMessage(h, done - 1);
    }
  }

  /** In a newest-first history the messages older than `t` are a suffix of it. */
  lemma {:induction false} OlderIsSuffix(h: seq<Message>, t: int)
    requires NewestFirst(h)
    ensures Older(h, t) == h[|h| - |Older(h, t)|..]
  {
    if h != [] {
      if h[0].createdAt < t {
        OlderKeepsAll(h, t);
      } else {
        assert NewestFirst(h[1..]);
        OlderIsSuffix(h[1..], t);
      }
    }
  }
}
