// What the workers know of a call they wait for: the answer, and what others
// did to the tables in the meantime. An action is a step of the worker's queue.
module Awaiting {
  // A provider answers, or raises an error that may be worth a retry.
  datatype Reply<T> = Value(value: T) | Raised(retryable: bool)

  // Between two heartbeats others act; the heartbeat may meet a database that is down.
  datatype Beat<A> = Beat(others: seq<A>, databaseUp: bool)

  // A call awaited under a lease: heartbeats, what happens after the last one, the answer.
  datatype Awaited<A, T> = Awaited(beats: seq<Beat<A>>, others: seq<A>, reply: Reply<T>)

  // What such a call returns or throws: the answer, a stale lease, or another error.
  datatype Leased<T> = Got(value: T) | Lost | Broke(retryable: bool)

  // What happens to the tables around such a call when nothing goes wrong: a
  // renewal before it, one after every heartbeat's wait, and one at the end.
  function BeatTrace<A>(beats: seq<Beat<A>>, renew: A): seq<A> {
    if beats == [] then []
    else BeatTrace(beats[..|beats| - 1], renew) + beats[|beats| - 1].others + [renew]
  }

  function FullTrace<A, T>(call: Awaited<A, T>, renew: A): seq<A> {
    [renew] + BeatTrace(call.beats, renew) + call.others + [renew]
  }

  lemma {:induction false} BeatTraceGrows<A>(beats: seq<Beat<A>>, i: nat, renew: A)
    requires i <= |beats|
    ensures BeatTrace(beats[..i], renew) <= BeatTrace(beats, renew)
  {
    if i == |beats| {
      assert beats[..i] == beats;
    } else {
      var n := |beats| - 1;
      assert beats[..n][..i] == beats[..i];
      BeatTraceGrows(beats[..n], i, renew);
      LongerStill(BeatTrace(beats[..i], renew), BeatTrace(beats[..n], renew), beats[n].others + [renew]);
      assert BeatTrace(beats, renew) == BeatTrace(beats[..n], renew) + (beats[n].others + [renew]);
    }
  }

  lemma LongerStill<A>(a: seq<A>, b: seq<A>, more: seq<A>)
    requires a <= b
    ensures a <= b + more
  {
  }

  // The first i heartbeats, with the renewal before them, begin the whole.
  lemma BeatsBeginTrace<A, T>(call: Awaited<A, T>, i: nat, renew: A)
    requires i <= |call.beats|
    ensures [renew] + BeatTrace(call.beats[..i], renew) <= FullTrace(call, renew)
  {
    BeatTraceGrows(call.beats, i, renew);
    var a, b := BeatTrace(call.beats[..i], renew), BeatTrace(call.beats, renew);
    LongerStill([renew] + a, [renew] + b, call.others + [renew]);
    assert FullTrace(call, renew) == [renew] + b + (call.others + [renew]);
  }

  lemma OneMoreBeat<A>(beats: seq<Beat<A>>, i: nat, renew: A)
    requires i < |beats|
    ensures BeatTrace(beats[..i + 1], renew) == BeatTrace(beats[..i], renew) + (beats[i].others + [renew])
    ensures AllUp(beats[..i + 1]) <==> AllUp(beats[..i]) && beats[i].databaseUp
    ensures AllUp(beats) ==> beats[i].databaseUp
  {
    assert beats[..i + 1][..i] == beats[..i];
    assert forall j | 0 <= j < i :: beats[..i + 1][j] == beats[..i][j];
  }

  ghost predicate AllUp<A>(beats: seq<Beat<A>>) {
    forall i | 0 <= i < |beats| :: beats[i].databaseUp
  }

  datatype ParserStatus = StillRunning | ParserFailed | ParserDone

  datatype RunOutcome = Idle | TurnDeferred | TurnCompleted | TurnReviewRequired | TurnFailed
}
