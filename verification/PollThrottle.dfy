/**
 The Telegram relay's call path: poll slots, retries and the getMe cache
 (telegram_relay/runtime_proxy/relay.py:23-45, 86-129).
 */
module PollThrottle {
  import opened Common

  datatype Method = GetMe | GetUpdates | DeleteWebhook | SendMessage

  /** How often a method may be tried. */
  function Attempts(m: Method): nat {
    match m
    case GetMe => 3
    case GetUpdates => 1
    case DeleteWebhook => 2
    case SendMessage => 3
  }

  datatype Reply = Reply(ok: bool, body: string)

  const EMPTY_POLL := Reply(true, "[]")
  const WEBHOOK_RETAINED := Reply(true, "true")
  const UNAVAILABLE := Reply(false, "telegram relay temporarily unavailable")

  /** The first successful answer among the first n, if any. */
  function FirstAnswer(upstream: seq<Option<Reply>>, n: nat): Option<Reply> {
    if upstream == [] || n == 0 then None
    else if upstream[0].Some? then upstream[0]
    else FirstAnswer(upstream[1..], n - 1)
  }

  lemma {:induction false} FirstAnswerMeans(upstream: seq<Option<Reply>>)
    ensures FirstAnswer(upstream, |upstream|).None? <==> forall k | 0 <= k < |upstream| :: upstream[k].None?
  {
    if upstream != [] {
      FirstAnswerMeans(upstream[1..]);
      assert forall k | 0 < k < |upstream| :: upstream[k] == upstream[1..][k - 1];
    }
  }

  function Fallback(m: Method, cache: Option<Reply>): Reply {
    match m
    case GetUpdates => EMPTY_POLL
    case DeleteWebhook => WEBHOOK_RETAINED
    case GetMe => if cache.Some? then cache.value else UNAVAILABLE
    case SendMessage => UNAVAILABLE
  }

  /** The poll slot: admitted when the sampled time has reached the next allowed one. */
  function NextAllowed(allowed: real, now: real, interval: real): real {
    if now < allowed then allowed else now + interval
  }

  class Relay {
    const interval: real
    var nextPollAllowedAt: real
    var getMeCache: Option<Reply>
    var getMeCachedAt: real

    constructor (interval: real)
      requires interval > 0.0
      ensures this.interval == interval && nextPollAllowedAt == 0.0 && getMeCache.None?
    {
      this.interval := interval;
      nextPollAllowedAt, getMeCache, getMeCachedAt := 0.0, None, 0.0;
    }

    /** The section under the poll lock; `now` was sampled before the lock was taken. */
    method ReserveSlot(now: real) returns (admitted: bool)
      modifies this`nextPollAllowedAt
      ensures admitted <==> now >= old(nextPollAllowedAt)
      ensures nextPollAllowedAt == NextAllowed(old(nextPollAllowedAt), now, interval)
    {
      if now < nextPollAllowedAt {
        return false;
      }
      nextPollAllowedAt := now + interval;
      return true;
    }

    /** upstream[k] is what attempt k would bring: an answer, or a failure that may be retried. */
    method CallWithFallback(m: Method, now: real, answeredAt: real, upstream: seq<Option<Reply>>)
      returns (reply: Reply, attempts: nat)
      requires |upstream| == Attempts(m)
      modifies this
      ensures var cached := old(getMeCache);
              var stillCached := m.GetMe? && cached.Some? && now - old(getMeCachedAt) < 3600.0;
              var refused := m.GetUpdates? && now < old(nextPollAllowedAt);
              var answer := FirstAnswer(upstream, |upstream|);
              && (stillCached ==> reply == cached.value)
              && (refused ==> reply.ok && reply.body == "[]")
              && (stillCached || refused <==> attempts == 0)
              && (!stillCached && !refused && answer.Some? ==> reply == answer.value)
              && (!stillCached && !refused && answer.None? ==>
                    match m
                    case GetUpdates => reply.ok && reply.body == "[]"
                    case DeleteWebhook => reply.ok && reply.body == "true"
                    case GetMe => if cached.Some? then reply == cached.value else !reply.ok
                    case SendMessage => !reply.ok)
              && attempts <= (match m case GetUpdates => 1 case DeleteWebhook => 2 case _ => 3)
              && |upstream| == (match m case GetUpdates => 1 case DeleteWebhook => 2 case _ => 3)
              && (m.GetUpdates? && !refused ==> attempts == 1)
              && (!stillCached && !refused && answer.None? ==> attempts == |upstream|)
              && (answer.None? <==> forall k | 0 <= k < |upstream| :: upstream[k].None?)
              && (attempts > 0 ==> forall k | 0 <= k < attempts - 1 :: upstream[k].None?)
              && (attempts > 0 && answer.Some? ==> upstream[attempts - 1] == answer)
              && nextPollAllowedAt == (if m.GetUpdates? then NextAllowed(old(nextPollAllowedAt), now, interval)
                                       else old(nextPollAllowedAt))
              && var renewed := m.GetMe? && !stillCached && answer.Some? && answer.value.ok;
                 && getMeCache == (if renewed then answer else cached)
                 && getMeCachedAt == if renewed then answeredAt else old(getMeCachedAt)
    {
      attempts := 0;
      FirstAnswerMeans(upstream);
      if m.GetMe? && getMeCache.Some? && now - getMeCachedAt < 3600.0 {
        return getMeCache.value, 0;
      }
      if m.GetUpdates? {
        var admitted := ReserveSlot(now);
        if !admitted {
          return EMPTY_POLL, 0;
        }
      }
      while attempts < |upstream|
        invariant attempts <= |upstream|
        invariant forall k | 0 <= k < attempts :: upstream[k].None?
        invariant FirstAnswer(upstream, |upstream|) == FirstAnswer(upstream[attempts..], |upstream| - attempts)
        invariant getMeCache == old(getMeCache) && getMeCachedAt == old(getMeCachedAt)
        invariant nextPollAllowedAt == if m.GetUpdates? then NextAllowed(old(nextPollAllowedAt), now, interval)
                                       else old(nextPollAllowedAt)
      {
        var result := upstream[attempts];
        assert upstream[attempts..][0] == result && upstream[attempts..][1..] == upstream[attempts + 1..];
        attempts := attempts + 1;
        if result.Some? {
          if m.GetMe? && result.value.ok {
            getMeCache := result;
            getMeCachedAt := answeredAt;
          }
          return result.value, attempts;
        }
      }
      reply := Fallback(m, getMeCache);
    }
  }

  // ---------------------------------------------------------------- polls over a whole run

  /** The next-allowed time after polls with the given sampled times took the lock in this order. */
  function AllowedAfter(start: real, nows: seq<real>, interval: real): real {
    if nows == [] then start
    else NextAllowed(AllowedAfter(start, nows[..|nows| - 1], interval), nows[|nows| - 1], interval)
  }

  predicate Admitted(start: real, nows: seq<real>, interval: real, i: nat)
    requires i < |nows|
  {
    nows[i] >= AllowedAfter(start, nows[..i], interval)
  }

  lemma {:induction false} AllowedNeverDecreases(start: real, nows: seq<real>, interval: real, i: nat, j: nat)
    requires interval >= 0.0 && i <= j <= |nows|
    ensures AllowedAfter(start, nows[..i], interval) <= AllowedAfter(start, nows[..j], interval)
    decreases j - i
  {
    if i < j {
      AllowedNeverDecreases(start, nows, interval, i, j - 1);
      assert nows[..j][..j - 1] == nows[..j - 1];
    }
  }

  /**
   Whatever times the threads sampled before the lock and in whatever order they took it, the sampled
   times of two admitted polls lie at least one interval apart, the later holder's being the later.
   */
  lemma AdmittedPollsAreSpaced(start: real, nows: seq<real>, interval: real, i: nat, j: nat)
    requires interval >= 0.0 && i < j < |nows|
    requires Admitted(start, nows, interval, i) && Admitted(start, nows, interval, j)
    ensures nows[j] - nows[i] >= interval
  {
    assert nows[..i + 1][..i] == nows[..i];
    AllowedNeverDecreases(start, nows, interval, i + 1, j);
  }
}
