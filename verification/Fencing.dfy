// What every leased work queue of the workers has in common: a lease gives a
// key a holder, each new lease carries a token no earlier lease carried, and a
// statement of a holder takes effect only while the holder's lease is current.
// The results here are about histories of leases; the queues show that their
// own runs are such histories.
module Fencing {
  datatype Holder = Holder(worker: string, token: nat)

  // The leases in force, and every token handed out so far.
  datatype Leases = Leases(held: map<string, Holder>, issued: set<nat>)

  predicate Current(v: Leases, key: string, h: Holder) {
    key in v.held && v.held[key] == h
  }

  ghost predicate Sound(v: Leases) {
    && (forall k | k in v.held :: v.held[k].token in v.issued)
    && (forall k, l | k in v.held && l in v.held && v.held[k].token == v.held[l].token :: k == l)
  }

  // One step: leases may end, and a lease that was not there before has a
  // token that had not been issued before.
  ghost predicate Moves(v: Leases, w: Leases) {
    && Sound(w)
    && v.issued <= w.issued
    && forall k | k in w.held :: Current(v, k, w.held[k]) || w.held[k].token !in v.issued
  }

  ghost predicate History(vs: seq<Leases>) {
    && |vs| > 0
    && Sound(vs[0])
    && forall i | 0 <= i < |vs| - 1 :: Moves(vs[i], vs[i + 1])
  }

  lemma {:induction false} IssuedGrows(vs: seq<Leases>, i: nat, k: nat)
    requires History(vs) && i <= k < |vs|
    ensures vs[i].issued <= vs[k].issued
  {
    if i < k {
      IssuedGrows(vs, i, k - 1);
      assert Moves(vs[k - 1], vs[k - 1 + 1]);
    }
  }

  // A lease whose token was known earlier was already in force then.
  lemma {:induction false} HeldSince(vs: seq<Leases>, i: nat, k: nat, key: string, h: Holder)
    requires History(vs) && i <= k < |vs|
    requires h.token in vs[i].issued && Current(vs[k], key, h)
    ensures Current(vs[i], key, h)
  {
    if i < k {
      IssuedGrows(vs, i, k - 1);
      assert Moves(vs[k - 1], vs[k - 1 + 1]);
      HeldSince(vs, i, k - 1, key, h);
    }
  }

  lemma SoundAt(vs: seq<Leases>, i: nat)
    requires History(vs) && i < |vs|
    ensures Sound(vs[i])
  {
    if i > 0 {
      assert Moves(vs[i - 1], vs[i - 1 + 1]);
    }
  }

  // No ABA: a lease that stopped being current never becomes current again.
  lemma NeverCurrentAgain(vs: seq<Leases>, i: nat, j: nat, k: nat, key: string, h: Holder)
    requires History(vs) && i <= j <= k < |vs|
    requires Current(vs[i], key, h) && !Current(vs[j], key, h)
    ensures !Current(vs[k], key, h)
  {
    SoundAt(vs, i);
    IssuedGrows(vs, i, j);
    if Current(vs[k], key, h) {
      HeldSince(vs, j, k, key, h);
    }
  }

  // The same, for a lease whose token is known and that is not current.
  lemma LostStaysLost(vs: seq<Leases>, j: nat, k: nat, key: string, h: Holder)
    requires History(vs) && j <= k < |vs|
    requires h.token in vs[j].issued && !Current(vs[j], key, h)
    ensures !Current(vs[k], key, h)
  {
    if Current(vs[k], key, h) {
      HeldSince(vs, j, k, key, h);
    }
  }

  // A lease that is current before and after was current all the time between.
  lemma HeldThroughout(vs: seq<Leases>, i: nat, j: nat, k: nat, key: string, h: Holder)
    requires History(vs) && i <= j <= k < |vs|
    requires Current(vs[i], key, h) && Current(vs[k], key, h)
    ensures Current(vs[j], key, h)
  {
    if !Current(vs[j], key, h) {
      NeverCurrentAgain(vs, i, j, k, key, h);
    }
  }

  // A token names one key and one worker for the whole history.
  lemma TokenNamesOneLease(vs: seq<Leases>, i: nat, j: nat, key: string, other: string, h: Holder, g: Holder)
    requires History(vs) && i <= j < |vs|
    requires Current(vs[i], key, h) && Current(vs[j], other, g) && h.token == g.token
    ensures key == other && h == g
  {
    SoundAt(vs, i);
    HeldSince(vs, i, j, other, g);
  }

  // A token is given up at most once.
  lemma ReleasedOnce(vs: seq<Leases>, i: nat, j: nat, key: string, h: Holder)
    requires History(vs) && i < |vs| - 1 && j < |vs| - 1
    requires Current(vs[i], key, h) && !Current(vs[i + 1], key, h)
    requires Current(vs[j], key, h) && !Current(vs[j + 1], key, h)
    ensures i == j
  {
    if i < j {
      NeverCurrentAgain(vs, i, i + 1, j, key, h);
    } else if j < i {
      NeverCurrentAgain(vs, j, j + 1, i, key, h);
    }
  }
}
