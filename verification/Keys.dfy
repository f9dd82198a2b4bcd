/** Event ids and idempotency keys: joining with a colon, and when joining can be undone. */
module Keys {
  import opened Basics

  // f"{left}:{right}"
  function Join(left: string, right: string): string {
    left + ":" + right
  }

  function BuildEventId(tweetId: string, ticker: string): string {
    Join(tweetId, ticker)
  }

  function ComputeIdempotencyKey(eventId: string, strategyId: string): string {
    Join(eventId, strategyId)
  }

  predicate ColonFree(s: string) {
    ':' !in s
  }

  // str.rpartition(":"): what stands before and after the last colon
  function SplitLast(s: string): Option<(string, string)> {
    if s == [] then None
    else
      match SplitLast(s[1..])
      case Some(p) => Some(([s[0]] + p.0, p.1))
      case None => if s[0] == ':' then Some(([], s[1..])) else None
  }

  lemma {:induction false} SplitLastNone(s: string)
    ensures SplitLast(s).None? <==> ColonFree(s)
  {
    if s != [] {
      SplitLastNone(s[1..]);
      assert s == [s[0]] + s[1..];
    }
  }

  lemma {:induction false} SplitLastColonFree(s: string)
    requires SplitLast(s).Some?
    ensures ColonFree(SplitLast(s).value.1)
    ensures s == Join(SplitLast(s).value.0, SplitLast(s).value.1)
  {
    if SplitLast(s[1..]).Some? {
      SplitLastColonFree(s[1..]);
    } else {
      SplitLastNone(s[1..]);
    }
    assert s == [s[0]] + s[1..];
  }

  lemma {:induction false} SplitLastPrefix(left: string, right: string)
    requires ColonFree(right)
    ensures SplitLast(Join(left, right)) == Some((left, right))
  {
    var s := Join(left, right);
    if left == [] {
      assert s[1..] == right;
      SplitLastNone(right);
    } else {
      SplitLastPrefix(left[1..], right);
      assert s[1..] == Join(left[1..], right);
      assert left == [left[0]] + left[1..];
    }
  }

  /** Splitting at the last colon undoes a join exactly when the right part holds no colon. */
  lemma JoinRoundTrip(left: string, right: string)
    ensures SplitLast(Join(left, right)) == Some((left, right)) <==> ColonFree(right)
  {
    if ColonFree(right) {
      SplitLastPrefix(left, right);
    } else if SplitLast(Join(left, right)) == Some((left, right)) {
      SplitLastColonFree(Join(left, right));
      assert false;
    }
  }

  /** An event id names one tweet and one ticker, as long as tickers hold no colon. */
  lemma EventIdInjective(t1: string, k1: string, t2: string, k2: string)
    requires ColonFree(k1) && ColonFree(k2)
    ensures BuildEventId(t1, k1) == BuildEventId(t2, k2) <==> t1 == t2 && k1 == k2
  {
    JoinRoundTrip(t1, k1);
    JoinRoundTrip(t2, k2);
  }

  /** For one tweet no condition is needed: different tickers give different event ids. */
  lemma EventIdSameTweet(t: string, k1: string, k2: string)
    ensures BuildEventId(t, k1) == BuildEventId(t, k2) <==> k1 == k2
  {
    assert BuildEventId(t, k1)[|t| + 1..] == k1;
    assert BuildEventId(t, k2)[|t| + 1..] == k2;
  }

  /** An idempotency key names one tweet, ticker and strategy when both suffixes hold no colon. */
  lemma IdempotencyKeyInjective(t1: string, k1: string, s1: string, t2: string, k2: string, s2: string)
    requires ColonFree(k1) && ColonFree(k2) && ColonFree(s1) && ColonFree(s2)
    ensures ComputeIdempotencyKey(BuildEventId(t1, k1), s1) == ComputeIdempotencyKey(BuildEventId(t2, k2), s2)
       <==> t1 == t2 && k1 == k2 && s1 == s2
  {
    JoinRoundTrip(BuildEventId(t1, k1), s1);
    JoinRoundTrip(BuildEventId(t2, k2), s2);
    EventIdInjective(t1, k1, t2, k2);
  }

  /** With colons in tickers two tweets can share an event id, and every ticker that holds a
      colon has such a rival. */
  lemma ColonTickerCollides(tweetId: string, ticker: string)
    ensures !ColonFree(ticker) <==>
            exists t: string, k: string :: |t| > |tweetId| && BuildEventId(t, k) == BuildEventId(tweetId, ticker)
  {
    if !ColonFree(ticker) {
      SplitLastNone(ticker);
      SplitLastColonFree(ticker);
      var (a, b) := SplitLast(ticker).value;
      assert BuildEventId(tweetId + ":" + a, b) == BuildEventId(tweetId, ticker);
    } else if t: string, k: string :| |t| > |tweetId| && BuildEventId(t, k) == BuildEventId(tweetId, ticker) {
      LongerRivalShowsColon(tweetId, ticker, t, k);
      assert false;
    }
  }

  lemma LongerRivalShowsColon(tweetId: string, ticker: string, t: string, k: string)
    requires |t| > |tweetId| && BuildEventId(t, k) == BuildEventId(tweetId, ticker)
    ensures !ColonFree(ticker)
  {
    assert BuildEventId(tweetId, ticker)[|t|] == ':' by { assert BuildEventId(t, k)[|t|] == ':'; }
    assert ticker[|t| - |tweetId| - 1] == ':';
  }
}
