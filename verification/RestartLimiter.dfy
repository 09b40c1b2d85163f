// The rear bridge's bound on pipeline restarts within one client episode
// (bridges/surface-rear-bridge, main).
module RestartLimiter {
  const WINDOW: real := 60.0
  const MAX_RESTARTS_PER_MIN: nat := 5

  // [r for r in restarts if now - r < 60.0]
  function Prune(restarts: seq<real>, now: real): seq<real> {
    if restarts == [] then []
    else
      var n := |restarts| - 1;
      Prune(restarts[..n], now) + if now - restarts[n] < WINDOW then [restarts[n]] else []
  }

  // One restart at `now`: the new list, and whether it may proceed.
  method Note(restarts: seq<real>, now: real) returns (kept: seq<real>, allowed: bool)
    ensures kept == Prune(restarts, now) + [now]
    ensures allowed <==> |kept| <= MAX_RESTARTS_PER_MIN
  {
    kept := [];
    for i := 0 to |restarts|
      invariant kept == Prune(restarts[..i], now)
    {
      assert restarts[..i + 1][..i] == restarts[..i];
      if now - restarts[i] < WINDOW {
        kept := kept + [restarts[i]];
      }
    }
    assert restarts[..|restarts|] == restarts;
    kept := kept + [now];
    allowed := |kept| <= MAX_RESTARTS_PER_MIN;
  }

  // The list after restarts at these times.
  function List(times: seq<real>): seq<real> {
    if times == [] then []
    else Prune(List(times[..|times| - 1]), times[|times| - 1]) + [times[|times| - 1]]
  }

  // Every one of these restarts was allowed to proceed.
  ghost predicate AllAllowed(times: seq<real>) {
    times == [] || (AllAllowed(times[..|times| - 1]) && |List(times)| <= MAX_RESTARTS_PER_MIN)
  }

  ghost predicate Ascending(times: seq<real>) {
    forall i, j :: 0 <= i < j < |times| ==> times[i] <= times[j]
  }

  lemma {:induction false} PruneConcat(a: seq<real>, b: seq<real>, now: real)
    ensures Prune(a + b, now) == Prune(a, now) + Prune(b, now)
  {
    if b == [] {
      assert a + b == a;
      assert Prune(a, now) + [] == Prune(a, now);
    } else {
      assert (a + b)[..|a + b| - 1] == a + b[..|b| - 1];
      PruneConcat(a, b[..|b| - 1], now);
    }
  }

  // What an earlier pruning dropped, a later one would drop too.
  lemma {:induction false} PruneTwice(restarts: seq<real>, earlier: real, now: real)
    requires earlier <= now
    ensures Prune(Prune(restarts, earlier), now) == Prune(restarts, now)
  {
    if restarts != [] {
      var n := |restarts| - 1;
      PruneTwice(restarts[..n], earlier, now);
      var tail := if earlier - restarts[n] < WINDOW then [restarts[n]] else [];
      PruneConcat(Prune(restarts[..n], earlier), tail, now);
      assert Prune([restarts[n]], now) == (if now - restarts[n] < WINDOW then [restarts[n]] else []) by {
        assert [restarts[n]][..0] == [];
      }
    }
  }

  // Pruning as it goes never forgets an entry that still counts: the list is
  // the whole history, pruned once.
  lemma {:induction false} ListIsPrunedHistory(times: seq<real>)
    requires times != [] && Ascending(times)
    ensures List(times) == Prune(times, times[|times| - 1])
  {
    var n := |times| - 1;
    var now := times[n];
    if n > 0 {
      ListIsPrunedHistory(times[..n]);
      PruneTwice(times[..n], times[n - 1], now);
    } else {
      assert times[..n] == [];
    }
  }

  // In ascending times, k of them are in the window exactly when the k-th from
  // the end is.
  lemma {:induction false} CountInWindow(times: seq<real>, now: real, k: nat)
    requires Ascending(times) && 0 < k
    ensures |Prune(times, now)| >= k <==> |times| >= k && now - times[|times| - k] < WINDOW
  {
    if times != [] {
      var n := |times| - 1;
      if now - times[n] >= WINDOW {
        NoneInWindow(times, now);
      } else if k > 1 {
        CountInWindow(times[..n], now, k - 1);
        if n >= k - 1 {
          assert times[..n][n - (k - 1)] == times[|times| - k];
        }
      }
    }
  }

  lemma {:induction false} NoneInWindow(times: seq<real>, now: real)
    requires forall i :: 0 <= i < |times| ==> now - times[i] >= WINDOW
    ensures Prune(times, now) == []
  {
    if times != [] {
      NoneInWindow(times[..|times| - 1], now);
    }
  }

  // The k-th restart and the fifth after it are a minute apart.
  ghost predicate Spaced(times: seq<real>, k: nat) {
    k + 5 < |times| ==> times[k + 5] - times[k] >= 60.0
  }

  // Restarts all proceed exactly when any six in a row span a minute or more:
  // no 60 s window ever holds more than five.
  lemma {:induction false} AllowedExactlyWhenSpaced(times: seq<real>)
    requires Ascending(times)
    ensures AllAllowed(times) <==> forall k: nat :: Spaced(times, k)
  {
    if times != [] {
      var n := |times| - 1;
      var init := times[..n];
      AllowedExactlyWhenSpaced(init);
      ListIsPrunedHistory(times);
      CountInWindow(times, times[n], MAX_RESTARTS_PER_MIN + 1);
      assert forall k: nat :: k + 5 != n ==> Spaced(init, k) == Spaced(times, k);
      if n >= 5 {
        assert Spaced(init, n - 5) && (Spaced(times, n - 5) <==> times[n] - times[n - 5] >= WINDOW);
      }
    }
  }

  // One more restart proceeds exactly when the fifth before it is a minute ago.
  lemma OneMoreRestart(times: seq<real>, now: real)
    requires Ascending(times) && (times != [] ==> times[|times| - 1] <= now)
    ensures Ascending(times + [now]) && List(times + [now]) == Prune(List(times), now) + [now]
    ensures var n := |times|;
            |List(times + [now])| <= MAX_RESTARTS_PER_MIN
            <==> (n >= MAX_RESTARTS_PER_MIN ==> now - times[n - MAX_RESTARTS_PER_MIN] >= WINDOW)
    ensures AllAllowed(times) && |List(times + [now])| <= MAX_RESTARTS_PER_MIN ==> AllAllowed(times + [now])
  {
    hide List, AllAllowed, Prune;
    var all := times + [now];
    ListOfOneMore(times, now);
    ListIsPrunedHistory(all);
    CountInWindow(all, now, MAX_RESTARTS_PER_MIN + 1);
  }

  lemma ListOfOneMore(times: seq<real>, now: real)
    ensures List(times + [now]) == Prune(List(times), now) + [now]
    ensures AllAllowed(times + [now]) <==> AllAllowed(times) && |List(times + [now])| <= MAX_RESTARTS_PER_MIN
  {
    assert (times + [now])[..|times|] == times;
  }
}
