/**
 * The token poll of `_get_account_info`: up to `max_attempts` queries of
 * the signup tab's cookies, `retry_interval` seconds apart, stopping at the
 * first attempt that yields a session token.
 */
module Polling {
  import opened Common
  import opened Events

  const SessionCookie := "WorkosCursorSessionToken"
  const MaxAttempts: nat := 30
  const RetryInterval: nat := 2

  /**
   * A cookie as the loop sees it: its name, and what `get_token_from_cookie`
   * makes of its value (a token, or an exception; a missing value is one).
   */
  datatype Cookie = Cookie(name: string, token: Call<string>)

  /** The position of the first session cookie at or after `from`. */
  function SessionIndex(cookies: seq<Cookie>, from: nat): (r: Option<nat>)
    requires from <= |cookies|
    ensures r.Some? ==> from <= r.value < |cookies| && cookies[r.value].name == SessionCookie
    ensures forall j :: from <= j < (if r.Some? then r.value else |cookies|) ==> cookies[j].name != SessionCookie
    decreases |cookies| - from
  {
    if from == |cookies| then None
    else if cookies[from].name == SessionCookie then Some(from)
    else SessionIndex(cookies, from + 1)
  }

  /**
   * One attempt: the token of the first session cookie, or None when the
   * query raised, no cookie carries the session name, or decoding the first
   * one that does raised.
   */
  function AttemptToken(answer: Call<seq<Cookie>>): (r: Option<string>) {
    match answer
    case Raises => None
    case Returns(cookies) =>
      match SessionIndex(cookies, 0)
      case None => None
      case Some(k) => if cookies[k].token.Returns? then Some(cookies[k].token.value) else None
  }

  /**
   * A query that raises, or a first session cookie whose value cannot be
   * decoded, makes the attempt fail; a later session cookie in the same
   * answer is never looked at.
   */
  lemma FailedAttemptCases(cookies: seq<Cookie>, k: nat)
    requires k < |cookies| && cookies[k].name == SessionCookie && cookies[k].token.Raises?
    requires forall j :: 0 <= j < k ==> cookies[j].name != SessionCookie
    ensures AttemptToken(Raises) == None
    ensures AttemptToken(Returns(cookies)) == None
  {
    assert SessionIndex(cookies, 0) == Some(k);
  }

  datatype PollOutcome = Found(attempt: nat, token: string) | Exhausted

  /** The poll from attempt `from` on, each attempt asking `query`. */
  function Poll(query: nat -> Call<seq<Cookie>>, from: nat): (r: PollOutcome)
    decreases MaxAttempts - from
  {
    if from >= MaxAttempts then Exhausted
    else
      match AttemptToken(query(from))
      case Some(token) => Found(from, token)
      case None => Poll(query, from + 1)
  }

  /**
   * The poll stops at the first successful attempt: if attempt `k` yields a
   * token and none of the attempts before it (from `from` on) does, the
   * poll finds that token at `k`.
   */
  lemma {:induction false} PollStopsAtFirst(query: nat -> Call<seq<Cookie>>, from: nat, k: nat)
    requires from <= k < MaxAttempts && AttemptToken(query(k)).Some?
    requires forall j :: from <= j < k ==> AttemptToken(query(j)).None?
    ensures Poll(query, from) == Found(k, AttemptToken(query(k)).value)
    decreases k - from
  {
    if from < k {
      PollStopsAtFirst(query, from + 1, k);
    }
  }

  /**
   * What a result means: a token found at attempt `k` is the token of
   * attempt `k`, within the budget, and every earlier attempt failed;
   * exhaustion means every attempt failed.
   */
  lemma {:induction false} PollResult(query: nat -> Call<seq<Cookie>>, from: nat)
    ensures Poll(query, from).Found? ==>
              var k := Poll(query, from).attempt;
              && from <= k < MaxAttempts
              && AttemptToken(query(k)) == Some(Poll(query, from).token)
              && forall j :: from <= j < k ==> AttemptToken(query(j)).None?
    ensures Poll(query, from).Exhausted? <==>
              forall j :: from <= j < MaxAttempts ==> AttemptToken(query(j)).None?
    decreases MaxAttempts - from
  {
    if from < MaxAttempts {
      PollResult(query, from + 1);
      if AttemptToken(query(from)).Some? {
        assert !(forall j :: from <= j < MaxAttempts ==> AttemptToken(query(j)).None?) by {
          assert AttemptToken(query(from)).Some?;
        }
      }
    }
  }

  /**
   * The events of the first `n` attempts when they all fail: each queries
   * the cookies, and each but the last permitted one sleeps before the next.
   */
  function FailedAttempts(n: nat): (r: seq<Event>)
    decreases n
  {
    if n == 0 then []
    else FailedAttempts(n - 1) + [QueryCookies] + (if n < MaxAttempts then [Sleep(RetryInterval)] else [])
  }

  /** One more failed attempt: a query, and a sleep unless it was the last one permitted. */
  lemma FailedAttemptsNext(start: seq<Event>, n: nat)
    requires n < MaxAttempts
    ensures start + FailedAttempts(n + 1)
            == start + FailedAttempts(n) + [QueryCookies] + (if n + 1 < MaxAttempts then [Sleep(RetryInterval)] else [])
  {
    var more := if n + 1 < MaxAttempts then [Sleep(RetryInterval)] else [];
    assert FailedAttempts(n + 1) == FailedAttempts(n) + [QueryCookies] + more;
    assert start + (FailedAttempts(n) + [QueryCookies] + more) == start + FailedAttempts(n) + [QueryCookies] + more;
  }

  /** The events of the whole poll, up to and including the successful query. */
  function PollEvents(query: nat -> Call<seq<Cookie>>): (r: seq<Event>) {
    match Poll(query, 0)
    case Found(k, _) => FailedAttempts(k) + [QueryCookies]
    case Exhausted => FailedAttempts(MaxAttempts)
  }

  /** A failed attempt hands the poll on to the next one. */
  lemma PollAdvance(query: nat -> Call<seq<Cookie>>, from: nat)
    requires from < MaxAttempts && AttemptToken(query(from)).None?
    ensures Poll(query, from + 1) == Poll(query, from)
  {
  }

  /**
   * When the poll from 0 has come down to attempt `from` and that attempt
   * yields a token, the poll finds it there, and its events are the failed
   * attempts before it and one more query.
   */
  lemma PollFoundAt(query: nat -> Call<seq<Cookie>>, from: nat)
    requires from < MaxAttempts && Poll(query, from) == Poll(query, 0)
    requires AttemptToken(query(from)).Some?
    ensures Poll(query, 0) == Found(from, AttemptToken(query(from)).value)
    ensures PollEvents(query) == FailedAttempts(from) + [QueryCookies]
  {
  }

  /** A poll that has come down to the end of the budget found nothing. */
  lemma PollExhaustedAt(query: nat -> Call<seq<Cookie>>)
    requires Poll(query, MaxAttempts) == Poll(query, 0)
    ensures Poll(query, 0) == Exhausted
    ensures PollEvents(query) == FailedAttempts(MaxAttempts)
  {
  }

  /**
   * `n` failed attempts make `n` queries and `min(n, 29)` sleeps of
   * `retry_interval` seconds, and nothing else.
   */
  lemma {:induction false} FailedAttemptsCounts(n: nat)
    requires n <= MaxAttempts
    ensures Count(FailedAttempts(n), QueryCookies) == n
    ensures Count(FailedAttempts(n), Sleep(RetryInterval)) == if n < MaxAttempts then n else MaxAttempts - 1
    ensures forall e :: e in FailedAttempts(n) ==> e == QueryCookies || e == Sleep(RetryInterval)
    decreases n
  {
    if n > 0 {
      FailedAttemptsCounts(n - 1);
      var tail := [QueryCookies] + (if n < MaxAttempts then [Sleep(RetryInterval)] else []);
      assert FailedAttempts(n) == FailedAttempts(n - 1) + tail;
      CountConcat(FailedAttempts(n - 1), tail, QueryCookies);
      CountConcat(FailedAttempts(n - 1), tail, Sleep(RetryInterval));
      assert Count(tail, QueryCookies) == 1 && Count(tail, Sleep(RetryInterval)) == (if n < MaxAttempts then 1 else 0) by {
        var more := if n < MaxAttempts then [Sleep(RetryInterval)] else [];
        CountConcat([QueryCookies], more, QueryCookies);
        CountConcat([QueryCookies], more, Sleep(RetryInterval));
        CountSingle(QueryCookies, QueryCookies);
        CountSingle(QueryCookies, Sleep(RetryInterval));
        if n < MaxAttempts {
          CountSingle(Sleep(RetryInterval), QueryCookies);
          CountSingle(Sleep(RetryInterval), Sleep(RetryInterval));
        }
      }
    }
  }

  /**
   * The cost of the poll: when no token ever comes, 30 queries and 29 sleeps
   * (58 seconds); when the token comes at attempt `k`, `k + 1` queries and
   * `k` sleeps.
   */
  lemma PollCost(query: nat -> Call<seq<Cookie>>)
    ensures Poll(query, 0).Exhausted? ==>
              && Count(PollEvents(query), QueryCookies) == MaxAttempts
              && Count(PollEvents(query), Sleep(RetryInterval)) == MaxAttempts - 1
    ensures Poll(query, 0).Found? ==>
              var k := Poll(query, 0).attempt;
              && Count(PollEvents(query), QueryCookies) == k + 1
              && Count(PollEvents(query), Sleep(RetryInterval)) == k
  {
    PollResult(query, 0);
    match Poll(query, 0)
    case Exhausted =>
      FailedAttemptsCounts(MaxAttempts);
    case Found(k, _) =>
      FailedAttemptsCounts(k);
      CountConcat(FailedAttempts(k), [QueryCookies], QueryCookies);
      CountConcat(FailedAttempts(k), [QueryCookies], Sleep(RetryInterval));
  }

  /** The poll only queries cookies and sleeps between attempts. */
  lemma PollEventKinds(query: nat -> Call<seq<Cookie>>)
    ensures forall e :: e in PollEvents(query) ==> e == QueryCookies || e == Sleep(RetryInterval)
  {
    PollResult(query, 0);
    match Poll(query, 0)
    case Exhausted =>
      FailedAttemptsCounts(MaxAttempts);
    case Found(k, _) =>
      FailedAttemptsCounts(k);
  }
}
