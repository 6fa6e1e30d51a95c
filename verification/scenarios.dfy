/**
  * Runs of several handlers in a row, with concrete amounts: the match of
  * two players from queue to settlement, the fee tiers keeping waiters
  * apart, and a user ending up in two open matches at once because pairing
  * leaves the caller's own queue entry in place.
  */
module Scenarios {
  import opened Wrappers
  import opened Tables
  import opened TableProps
  import opened Flows
  import opened FlowProps

  /**
    * A waiter at one fee is what a search at that fee by anyone else finds,
    * and a search at another fee finds nothing.
    */
  lemma FeeTiersSeparate(a: int, entry: QueueEntry, x: int, fee: real, pick: Option<int>)
    requires x != a
    requires OpponentChoice(map[a := entry], fee, x, pick)
    ensures fee == entry.fee ==> pick == Some(a)
    ensures fee != entry.fee ==> pick == None
  {
    var queue := map[a := entry];
    if fee == entry.fee {
      assert IsOpponent(queue, fee, x, a);
    }
  }

  /**
    * Two players with 100 each and ratings of 1000 ask for a match at 50:
    * the first waits, the second finds the first, the queue empties, and one
    * match is opened with the second as player 1. The admin names the first
    * the winner: 90 is credited on top of the untouched 100, nobody is
    * debited, the ratings move to 1016 and 984, and the match is completed.
    * Naming the other player afterwards is refused and changes nothing.
    */
  lemma MatchFromQueueToSettlement(db0: Db, a: int, b: int, mid: string, lobbyA: int, lobbyB: int,
                                   pickB: Option<int>, elo: RatingRule, d1: Db, d2: Db, d3: Db)
    requires a != b && a in db0.users && b in db0.users
    requires db0.users[a].balance == 100.0 && db0.users[b].balance == 100.0
    requires db0.users[a].rating == 1000 && db0.users[b].rating == 1000
    requires db0.queue == map[] && mid !in db0.matches
    requires ExactAtEquality(elo)
    requires d1 == Play(db0, a, 50.0, None, mid, lobbyA).0
    requires OpponentChoice(d1.queue, 50.0, b, pickB)
    requires d2 == Play(d1, b, 50.0, pickB, mid, lobbyB).0
    requires d3 == ResolveMatch(d2, mid, a, elo).0
    ensures Play(db0, a, 50.0, None, mid, lobbyA).1 == Queued
    ensures pickB == Some(a) && Play(d1, b, 50.0, pickB, mid, lobbyB).1 == Paired(a, mid)
    ensures d2.queue == map[] && d2.matches[mid] == NewMatch(b, a, 50.0)
    ensures d3.users[a].balance == 190.0 && d3.users[b].balance == 100.0
    ensures d3.users[a].rating == 1016 && d3.users[b].rating == 984
    ensures d3.matches[mid].status == Completed && d3.matches[mid].winner == Some(a)
    ensures ResolveMatch(d3, mid, b, elo) == (d3, Refused)
  {
    PlayQueues(db0, a, 50.0, mid, lobbyA);
    assert d1.queue == map[a := QueueEntry(50.0, lobbyA)];
    FeeTiersSeparate(a, QueueEntry(50.0, lobbyA), b, 50.0, pickB);
    PlayPairs(d1, b, 50.0, a, mid, lobbyB);
    assert d2.queue == map[];
    assert Contest(d2, mid, a, b);
    ResolvePayout(d2, mid, a, b, elo);
    EqualRatingsMoveSixteen(d2, mid, a, b, elo);
    assert Payout(50.0) == 90.0;
  }

  /**
    * A player waiting at one fee who is paired at another keeps the first
    * entry, and a third player at the first fee is then paired with them
    * too: one user in two matches awaiting a room code at the same time.
    */
  lemma CallerInTwoOpenMatches(db0: Db, c: int, a: int, e: int, f1: real, f2: real, mid1: string, mid2: string,
                               l1: int, l2: int, l3: int, l4: int, d1: Db, d2: Db)
    requires c != a && c != e && a != e && f1 != f2
    requires c in db0.users && a in db0.users && e in db0.users
    requires SearchesQueue(db0, c, f2) && SearchesQueue(db0, e, f1)
    requires db0.queue == map[c := QueueEntry(f1, l1), a := QueueEntry(f2, l2)]
    requires mid1 != mid2 && mid1 !in db0.matches && mid2 !in db0.matches
    requires d1 == Play(db0, c, f2, Some(a), mid1, l3).0
    requires d2 == Play(d1, e, f1, Some(c), mid2, l4).0
    ensures OpponentChoice(db0.queue, f2, c, Some(a)) && OpponentChoice(d1.queue, f1, e, Some(c))
    ensures mid1 in d2.matches && mid2 in d2.matches
    ensures d2.matches[mid1] == NewMatch(c, a, f2) && d2.matches[mid2] == NewMatch(e, c, f1)
  {
    FirstPairing(db0, c, a, f1, f2, mid1, l1, l2, l3, d1);
    assert SearchesQueue(d1, e, f1);
    assert IsOpponent(d1.queue, f1, e, c);
    PlayPairs(d1, e, f1, c, mid2, l4);
  }

  /** The first pairing of `CallerInTwoOpenMatches`: the caller's own entry at the other fee stays queued. */
  lemma FirstPairing(db0: Db, c: int, a: int, f1: real, f2: real, mid1: string, l1: int, l2: int, l3: int, d1: Db)
    requires c != a && f1 != f2 && a in db0.users && SearchesQueue(db0, c, f2)
    requires db0.queue == map[c := QueueEntry(f1, l1), a := QueueEntry(f2, l2)]
    requires mid1 !in db0.matches
    requires d1 == Play(db0, c, f2, Some(a), mid1, l3).0
    ensures OpponentChoice(db0.queue, f2, c, Some(a))
    ensures d1.queue == map[c := QueueEntry(f1, l1)]
    ensures d1.matches == db0.matches[mid1 := NewMatch(c, a, f2)]
    ensures forall u :: u in db0.users && u != c ==> u in d1.users && d1.users[u] == db0.users[u]
    ensures c in db0.users ==> c in d1.users
  {
    assert !IsOpponent(db0.queue, f2, c, c);
    assert forall w | IsOpponent(db0.queue, f2, c, w) :: w == a;
    PlayPairs(db0, c, f2, a, mid1, l3);
    assert d1.queue == map[c := QueueEntry(f1, l1)];
  }
}
