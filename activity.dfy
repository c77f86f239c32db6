/**
 * The client's live activity feed: each event the server broadcasts goes
 * to the front of the feed, and only the newest few are kept.
 */
module Activity {

  datatype ActivityEvent = ActivityEvent(id: string, message: string, time: string)

  /** How many events the feed keeps. */
  const FeedLimit: nat := 3

  /** The first `n` elements of `s`, or all of `s` when it is shorter: JavaScript's `slice(0, n)`. */
  function Prefix<T>(s: seq<T>, n: nat): (r: seq<T>)
    ensures |r| == if |s| < n then |s| else n
    ensures forall i :: 0 <= i < |r| ==> r[i] == s[i]
  {
    if |s| <= n then s else s[..n]
  }

  /** The feed after one broadcast event: it comes first, and the older entries follow in order up to the limit. */
  function Push(feed: seq<ActivityEvent>, event: ActivityEvent): (r: seq<ActivityEvent>)
    ensures |r| == (if |feed| < FeedLimit then |feed| + 1 else FeedLimit)
    ensures r[0] == event
    ensures forall i :: 1 <= i < |r| ==> r[i] == feed[i - 1]
  {
    Prefix([event] + feed, FeedLimit)
  }

  /** The feed after the events of `events` arrived, oldest first. */
  function Replay(feed: seq<ActivityEvent>, events: seq<ActivityEvent>): (r: seq<ActivityEvent>)
    ensures |feed| <= FeedLimit ==> |r| <= FeedLimit
    ensures events != [] ==> |r| > 0 && r[0] == events[|events| - 1]
    decreases |events|
  {
    if events == [] then feed else Push(Replay(feed, events[..|events| - 1]), events[|events| - 1])
  }

  function Reverse<T>(s: seq<T>): (r: seq<T>)
    ensures |r| == |s|
    decreases |s|
  {
    if s == [] then [] else [s[|s| - 1]] + Reverse(s[..|s| - 1])
  }

  /** Truncating the feed to its limit before pushing an event changes nothing. */
  lemma PushPrefix(s: seq<ActivityEvent>, event: ActivityEvent)
    ensures Push(Prefix(s, FeedLimit), event) == Push(s, event)
  {
  }

  /**
   * After any run of events, the feed holds the newest events first and
   * keeps exactly the three most recent of all it has seen.
   */
  lemma {:induction false} ReplayKeepsNewest(feed: seq<ActivityEvent>, events: seq<ActivityEvent>)
    requires |feed| <= FeedLimit
    ensures Replay(feed, events) == Prefix(Reverse(events) + feed, FeedLimit)
    decreases |events|
  {
    if events == [] {
      assert Reverse(events) + feed == feed;
    } else {
      var init, last := events[..|events| - 1], events[|events| - 1];
      ReplayKeepsNewest(feed, init);
      PushPrefix(Reverse(init) + feed, last);
      assert [last] + (Reverse(init) + feed) == Reverse(events) + feed;
    }
  }

  /** Starting from an empty feed, at most three entries, the newest first. */
  lemma FeedFromEmpty(events: seq<ActivityEvent>)
    ensures |Replay([], events)| == (if |events| < FeedLimit then |events| else FeedLimit)
    ensures forall i :: 0 <= i < |Replay([], events)| ==> Replay([], events)[i] == events[|events| - 1 - i]
  {
  }

  lemma {:induction false} ReverseAt<T>(s: seq<T>, i: nat)
    requires i < |s|
    ensures Reverse(s)[i] == s[|s| - 1 - i]
    decreases |s|
  {
    if i > 0 {
      ReverseAt(s[..|s| - 1], i - 1);
    }
  }
}
