/** The ingestion loop (backend/services/ingestion.py): check, insert, commit, publish, charge. */
module Ingestion {
  import opened Basics
  import opened Records
  import opened Protocol
  import opened Confluence
  import opened Worlds
  import opened KillSwitch
  import opened Trackers

  datatype StopReason = SwitchActive(source: Source) | BudgetBreached(spend: real)

  datatype IngestionReport = IngestionReport(persisted: nat, duplicates: nat, stopped: Option<StopReason>)

  // The ids of the rows from one table size to another
  function RowIds(from: nat, to: nat): (r: seq<int>)
    requires from <= to
    ensures |r| == to - from && forall i :: 0 <= i < to - from ==> r[i] == from + 1 + i
  {
    seq(to - from, i requires 0 <= i => from + 1 + i)
  }

  // The tweet is the first of its id: neither in the table nor earlier in the feed
  predicate IsNew(tweets: seq<Tweet>, feed: seq<Tweet>, i: int) {
    0 <= i < |feed| && feed[i].tweetId !in TweetIds(tweets) && forall j :: 0 <= j < i ==> feed[j].tweetId != feed[i].tweetId
  }

  // The new ones among the first k tweets of a feed, in feed order
  function NewOnes(tweets: seq<Tweet>, feed: seq<Tweet>, k: nat): seq<Tweet>
    requires k <= |feed|
  {
    if k == 0 then []
    else NewOnes(tweets, feed, k - 1) + if IsNew(tweets, feed, k - 1) then [feed[k - 1]] else []
  }

  /** A feed adds exactly the tweets that are the first of their id, in feed order. */
  lemma {:induction false} FeedAddsFirsts(tweets: seq<Tweet>, feed: seq<Tweet>, k: nat)
    requires k <= |feed|
    ensures Ingested(tweets, feed[..k]) == tweets + NewOnes(tweets, feed, k)
  {
    if k > 0 {
      assert feed[..k][..k - 1] == feed[..k - 1];
      FeedAddsFirsts(tweets, feed, k - 1);
      IngestedNames(tweets, feed[..k - 1]);
      NewIffUnseen(tweets, feed, k - 1);
    }
  }

  lemma NewIffUnseen(tweets: seq<Tweet>, feed: seq<Tweet>, i: nat)
    requires i < |feed|
    ensures IsNew(tweets, feed, i) <==> feed[i].tweetId !in TweetIds(tweets) && feed[i].tweetId !in TweetIds(feed[..i])
  {
    assert forall j :: 0 <= j < i ==> TweetIds(feed[..i])[j] == feed[j].tweetId;
  }

  // Which ids a table holds after a feed
  lemma {:induction false} IngestedNames(tweets: seq<Tweet>, feed: seq<Tweet>)
    ensures forall id :: id in TweetIds(Ingested(tweets, feed)) <==> id in TweetIds(tweets) || id in TweetIds(feed)
  {
    if feed != [] {
      var n := |feed| - 1;
      IngestedNames(tweets, feed[..n]);
      var before := Ingested(tweets, feed[..n]);
      assert TweetIds(feed) == TweetIds(feed[..n]) + [feed[n].tweetId];
      assert TweetIds(before + [feed[n]]) == TweetIds(before) + [feed[n].tweetId];
    }
  }

  // Feeding in two parts is feeding the whole
  lemma {:induction false} IngestedAppend(tweets: seq<Tweet>, a: seq<Tweet>, b: seq<Tweet>)
    ensures Ingested(tweets, a + b) == Ingested(Ingested(tweets, a), b)
  {
    if b == [] {
      assert a + b == a;
    } else {
      assert (a + b)[..|a + b| - 1] == a + b[..|b| - 1];
      IngestedAppend(tweets, a, b[..|b| - 1]);
    }
  }

  lemma {:induction false} ReplayAddsNothing(tweets: seq<Tweet>, feed: seq<Tweet>)
    requires forall t :: t in feed ==> t.tweetId in TweetIds(tweets)
    ensures Ingested(tweets, feed) == tweets
  {
    if feed != [] {
      var n := |feed| - 1;
      assert feed == feed[..n] + [feed[n]];
      ReplayAddsNothing(tweets, feed[..n]);
    }
  }

  /** After a feed, what follows adds nothing exactly when each of its tweets has an id that the table or the
      feed has already shown; in particular a reconnecting stream may replay any part of itself. */
  lemma ReplayAfterFeedIff(tweets: seq<Tweet>, feed: seq<Tweet>, more: seq<Tweet>)
    ensures Ingested(tweets, feed + more) == Ingested(tweets, feed)
       <==> forall t :: t in more ==> t.tweetId in TweetIds(tweets) || t.tweetId in TweetIds(feed)
  {
    IngestedAppend(tweets, feed, more);
    IngestedNames(tweets, feed);
    var table := Ingested(tweets, feed);
    if forall t :: t in more ==> t.tweetId in TweetIds(table) {
      ReplayAddsNothing(table, more);
    }
    if Ingested(table, more) == table {
      IngestedNames(table, more);
      forall t | t in more ensures t.tweetId in TweetIds(table) {
        var i :| 0 <= i < |more| && more[i] == t;
        assert TweetIds(more)[i] == t.tweetId;
      }
    }
  }

  // The worker waits for the next tweet
  ghost predicate AtTop(w: World)
    reads w
  {
    w.Valid() && w.actor.Ingestor? && w.tx.None? && w.sys.ingest == IWait
  }

  ghost method Receive(w: World, tweet: Tweet)
    requires AtTop(w)
    modifies w`sys
    ensures w.Valid()
    ensures w.sys == old(w.sys).(ingest := ICheck(tweet, ReadEnv),
                                 hist := old(w.sys.hist).(received := old(w.sys.hist.received) + [tweet]))
  {
    w.Do(Ingest(IngestInput(tweet, false)));
  }

  method CheckSwitch(w: World, tweet: Tweet) returns (state: SwitchState)
    requires w.Valid() && w.actor.Ingestor? && w.sys.ingest == ICheck(tweet, ReadEnv)
    modifies w`sys
    ensures w.Valid() && w.sys == old(w.sys).(ingest := if state.active then IStopped else IInsert(tweet))
  {
    var service := new KillSwitchService(w);
    var env: Option<string> := *;
    state := service.IsActive(env);
    ReadCheck(w, tweet, ReadEnv, EnvOn(env));
  }

  ghost method ReadCheck(w: World, tweet: Tweet, read: Read, envOn: bool)
    requires w.Valid() && w.actor.Ingestor? && w.sys.ingest == ICheck(tweet, read)
    requires (read.ReadFlag? || read.ReadLog? ==> !envOn) && (read.ReadLog? ==> !w.redis.flag)
    modifies w`sys
    ensures w.Valid()
    ensures w.sys == old(w.sys).(ingest := if SwitchOn(w.redis, w.db.switchLog, envOn) then IStopped else IInsert(tweet))
    decreases match read case ReadEnv => 2 case ReadFlag => 1 case ReadLog => 0
  {
    w.Do(Ingest(IngestInput(tweet, envOn)));
    if read.ReadEnv? && !envOn {
      ReadCheck(w, tweet, ReadFlag, envOn);
    } else if read.ReadFlag? && !w.redis.flag {
      ReadCheck(w, tweet, ReadLog, envOn);
    }
  }

  /** The unique constraint decides: None exactly when the tweet id is in the table; otherwise the new
      row's id, with the row committed. */
  method PersistRawTweet(w: World, tweet: Tweet) returns (id: Option<int>)
    requires w.Valid() && w.actor.Ingestor? && w.sys.ingest == IInsert(tweet)
    modifies w`db, w`sys
    ensures w.Valid() && (id.None? <==> tweet.tweetId in TweetIds(old(w.db.tweets)))
    ensures id.None? ==> w.sys == old(w.sys).(ingest := IWait)
    ensures id.Some? ==>
              && id.value == |w.db.tweets| && w.db == old(w.db).(tweets := old(w.db.tweets) + [tweet])
              && w.sys == old(w.sys).(db := w.db, ingest := IPublish(id.value))
  {
    w.Do(Ingest(NoTweet()));
    if tweet.tweetId in TweetIds(w.db.tweets) {
      return None;
    }
    CommitTweet(w, tweet);
    return Some(|w.db.tweets|);
  }

  method CommitTweet(w: World, tweet: Tweet)
    requires w.Valid() && w.actor.Ingestor? && w.sys.ingest == ICommit(tweet)
    modifies w`db, w`sys
    ensures w.Valid() && w.db == old(w.db).(tweets := old(w.db.tweets) + [tweet])
    ensures w.sys == old(w.sys).(db := w.db, ingest := IPublish(|w.db.tweets|))
  {
    w.db := w.db.(tweets := w.db.tweets + [tweet]);
    w.Do(Ingest(NoTweet()));
  }

  method Publish(w: World, id: int)
    requires w.Valid() && w.actor.Ingestor? && w.sys.ingest == IPublish(id)
    modifies w`redis, w`sys
    ensures w.Valid() && w.redis == old(w.redis).(tweetQueue := old(w.redis.tweetQueue) + [id])
    ensures w.sys == old(w.sys).(redis := w.redis, ingest := ICharge)
  {
    w.redis := w.redis.(tweetQueue := w.redis.tweetQueue + [id]);
    w.Do(Ingest(NoTweet()));
  }

  // Charges the tweet; Some when the budget is breached and the switch is on for it
  method Charge(w: World, budget: TwitterApiBudgetTracker) returns (breached: Option<real>)
    requires w.Valid() && w.actor.Ingestor? && w.tx.None? && w.sys.ingest == ICharge
    requires budget.world == w && budget.cost == w.c.tweetCost && budget.limit == w.c.tweetLimit
    modifies w`redis, w`db, w`tx, w`clock, w`sys
    ensures w.Valid() && w.tx.None?
    ensures w.db == old(w.db).(switchLog := w.db.switchLog) && w.redis.tweetQueue == old(w.redis.tweetQueue)
    ensures w.sys.hist.received == old(w.sys.hist.received)
    ensures breached.None? ==> w.sys.ingest == IWait
    ensures breached.Some? ==> w.sys.ingest == IStopped && breached.value >= w.c.tweetLimit && LatestActivated(w.db.switchLog)
  {
    w.Elapse();
    var status := budget.RecordTweet();
    if OverBudget(status) {
      var service := new KillSwitchService(w);
      var activated := TriggerFromBudget(service, status);
      service.Commit();
      if activated {
        return Some(status.spend);
      }
    }
    return None;
  }

  // What one tweet comes to
  datatype Turn = Halted(source: Source) | Duplicate | Persisted(breached: Option<real>)

  method TakeTurn(w: World, budget: TwitterApiBudgetTracker, tweet: Tweet) returns (turn: Turn)
    requires AtTop(w) && budget.world == w && budget.cost == w.c.tweetCost && budget.limit == w.c.tweetLimit
    modifies w`redis, w`db, w`tx, w`clock, w`sys
    ensures w.Valid() && w.tx.None? && w.sys.hist.received == old(w.sys.hist.received) + [tweet]
    ensures turn.Halted? ==> w.sys.ingest == IStopped && w.db == old(w.db) && w.redis == old(w.redis)
    ensures !turn.Halted? ==>
              && (turn.Duplicate? <==> tweet.tweetId in TweetIds(old(w.db.tweets)))
              && w.db.tweets == old(w.db.tweets) + (if turn.Duplicate? then [] else [tweet])
              && w.redis.tweetQueue == old(w.redis.tweetQueue) + (if turn.Duplicate? then [] else [|w.db.tweets|])
              && w.sys.ingest == (if turn.Persisted? && turn.breached.Some? then IStopped else IWait)
    ensures turn.Persisted? && turn.breached.Some? ==> turn.breached.value >= w.c.tweetLimit && LatestActivated(w.db.switchLog)
  {
    Receive(w, tweet);
    var state := CheckSwitch(w, tweet);
    if state.active {
      return Halted(state.source);
    }
    var id := PersistRawTweet(w, tweet);
    if id.None? {
      return Duplicate;
    }
    Publish(w, id.value);
    var breached := Charge(w, budget);
    return Persisted(breached);
  }

  /** Of the tweets it took from the feed the loop persisted exactly the first of every new id, in order,
      and queued exactly their row ids, in order. It leaves tweets in the feed only when the switch read on
      or when its own charge breached the budget. */
  method RunIngestion(w: World, budget: TwitterApiBudgetTracker, feed: seq<Tweet>)
    returns (report: IngestionReport, ghost taken: nat)
    requires AtTop(w) && budget.world == w && budget.cost == w.c.tweetCost && budget.limit == w.c.tweetLimit
    modifies w
    ensures w.Valid() && w.tx.None?
    ensures w.states == Reached(w.c, Ingestor, old(w.sys)) ==> LeadsTo(w.c, Ingestor, old(w.sys), w.sys)
    ensures taken <= |feed| && w.db.tweets == Ingested(old(w.db.tweets), feed[..taken])
    ensures report.persisted + report.duplicates == taken && |w.db.tweets| == |old(w.db.tweets)| + report.persisted
    ensures w.redis.tweetQueue == old(w.redis.tweetQueue) + RowIds(|old(w.db.tweets)|, |w.db.tweets|)
    ensures report.stopped.None? ==> taken == |feed| && w.sys.ingest == IWait
    ensures report.stopped.Some? ==> w.sys.ingest == IStopped
    ensures report.stopped.Some? && report.stopped.value.BudgetBreached? ==>
              report.stopped.value.spend >= w.c.tweetLimit && LatestActivated(w.db.switchLog)
  {
    var persisted: nat, duplicates: nat := 0, 0;
    taken := 0;
    for k := 0 to |feed|
      invariant AtTop(w) && taken == k == persisted + duplicates
      invariant w.db.tweets == Ingested(old(w.db.tweets), feed[..k]) && |w.db.tweets| == |old(w.db.tweets)| + persisted
      invariant w.redis.tweetQueue == old(w.redis.tweetQueue) + RowIds(|old(w.db.tweets)|, |w.db.tweets|)
    {
      assert feed[..k + 1][..k] == feed[..k];
      var turn := TakeTurn(w, budget, feed[k]);
      if turn.Halted? {
        return IngestionReport(persisted, duplicates, Some(SwitchActive(turn.source))), taken;
      }
      taken := k + 1;
      if turn.Duplicate? {
        duplicates := duplicates + 1;
        continue;
      }
      persisted := persisted + 1;
      if turn.breached.Some? {
        return IngestionReport(persisted, duplicates, Some(BudgetBreached(turn.breached.value))), taken;
      }
    }
    assert feed[..|feed|] == feed;
    return IngestionReport(persisted, duplicates, None), taken;
  }
}
