/**
  * What the operations of db.py promise, proved about the table functions of
  * module `Tables`: the ledger, the queue, the match lifecycle and the
  * settlement, including the cases where the code as written lets more
  * through than its callers expect.
  */
module TableProps {
  import opened Wrappers
  import opened Tables

  // ================================================================ ledger

  /**
    * `adjust_balance` changes one user's balance by exactly `amount`, with no
    * overdraft check, appends exactly one transaction with that amount and
    * kind, and changes nothing else.
    */
  lemma AdjustBalanceEffect(db: Db, uid: int, amount: real, kind: string, note: string)
    ensures var d := AdjustBalance(db, uid, amount, kind, note);
      && d.users.Keys == db.users.Keys
      && (forall u :: u in db.users && u != uid ==> d.users[u] == db.users[u])
      && (uid in db.users ==> d.users[uid] == db.users[uid].(balance := db.users[uid].balance + amount))
      && d.transactions == db.transactions + [Transaction(uid, amount, kind, note)]
      && d.(users := db.users, transactions := db.transactions) == db
  {
  }

  /** The ledger sum of the adjusted user moves by `amount`; every other user's stays. */
  lemma AdjustBalanceLedgerSum(db: Db, uid: int, amount: real, kind: string, note: string, u: int)
    ensures LedgerSum(AdjustBalance(db, uid, amount, kind, note).transactions, u)
         == LedgerSum(db.transactions, u) + (if u == uid then amount else 0.0)
  {
    var txs := AdjustBalance(db, uid, amount, kind, note).transactions;
    assert txs[..|txs| - 1] == db.transactions;
  }

  /** Adjusting by `x` and then by `-x` restores every balance; the ledger keeps both entries. */
  lemma AdjustThenReverse(db: Db, uid: int, x: real, kind1: string, note1: string, kind2: string, note2: string)
    ensures var d := AdjustBalance(AdjustBalance(db, uid, x, kind1, note1), uid, -x, kind2, note2);
      && d.users == db.users
      && d.transactions == db.transactions + [Transaction(uid, x, kind1, note1), Transaction(uid, -x, kind2, note2)]
  {
    var d := AdjustBalance(AdjustBalance(db, uid, x, kind1, note1), uid, -x, kind2, note2);
    if uid in db.users {
      assert d.users[uid] == db.users[uid];
    }
  }

  /** `adjust_balance` keeps every balance equal to its ledger sum. */
  lemma AdjustKeepsLedgerBalanced(db: Db, uid: int, amount: real, kind: string, note: string)
    requires LedgerBalanced(db)
    ensures LedgerBalanced(AdjustBalance(db, uid, amount, kind, note))
  {
    var d := AdjustBalance(db, uid, amount, kind, note);
    forall u | u in d.users
      ensures d.users[u].balance == LedgerSum(d.transactions, u)
    {
      AdjustBalanceLedgerSum(db, uid, amount, kind, note, u);
    }
  }

  /** The rating step of a settlement changes no balance. */
  lemma RatingKeepsBalances(users: map<int, User>, wid: int, lid: int, rw: int, rl: int)
    requires wid in users && lid in users
    ensures var lost := RateContest(users, wid, lid, rw, rl);
      && lost.Keys == users.Keys
      && forall u :: u in lost ==> lost[u].balance == users[u].balance
  {
  }

  /** Settlement keeps every balance equal to its ledger sum: the payout is itself a ledger entry. */
  lemma ResolveKeepsLedgerBalanced(db: Db, mid: string, wid: int, elo: RatingRule)
    requires LedgerBalanced(db)
    ensures LedgerBalanced(ResolveMatch(db, mid, wid, elo).0)
  {
    if mid in db.matches && db.matches[mid].status != Completed {
      var m := db.matches[mid];
      var lid := if wid == m.player1 then m.player2 else m.player1;
      if wid in db.users && lid in db.users {
        var rw, rl := db.users[wid].rating, db.users[lid].rating;
        var rated := db.(users := RateContest(db.users, wid, lid, elo(rw, rl, 1), elo(rl, rw, 0)));
        RatingKeepsBalances(db.users, wid, lid, elo(rw, rl, 1), elo(rl, rw, 0));
        assert LedgerBalanced(rated);
        if m.fee > 0.0 {
          AdjustKeepsLedgerBalanced(rated, wid, Payout(m.fee), "match_win", "");
        }
        assert ResolveMatch(db, mid, wid, elo).0 == SettleMatch(rated, mid, m, wid);
      }
    }
  }

  /** Creating a user keeps the ledger balanced when no entries are already booked to that id. */
  lemma CreateUserKeepsLedgerBalanced(db: Db, uid: int, name: string, referrer: Option<int>)
    requires LedgerBalanced(db)
    requires uid !in db.users ==> LedgerSum(db.transactions, uid) == 0.0
    ensures LedgerBalanced(CreateUser(db, uid, name, referrer))
  {
  }

  /**
    * Without that condition it fails: `adjust_balance` books an entry for an
    * id with no row, and the row created later starts from a zero balance.
    */
  lemma LedgerEntryBeforeUserRow()
    ensures var d := CreateUser(AdjustBalance(EmptyDb, 7, 5.0, "match_win", ""), 7, "p", None);
      d.users[7].balance == 0.0 && LedgerSum(d.transactions, 7) == 5.0
  {
    var txs := AdjustBalance(EmptyDb, 7, 5.0, "match_win", "").transactions;
    assert txs[..0] == [];
  }

  // ================================================================ users and settings

  /** `set_user_state` replaces the session of an existing user and touches nothing else. */
  lemma SetUserStateEffect(db: Db, uid: int, s: Session)
    ensures uid in db.users ==> SetUserState(db, uid, s) == db.(users := db.users[uid := db.users[uid].(session := s)])
    ensures uid !in db.users ==> SetUserState(db, uid, s) == db
  {
    if uid in db.users {
      var u := db.users[uid];
      assert [State(s)][1..] == [];
      assert ApplyFields(u, [State(s)]) == ApplyFields(u.(session := s), []);
    }
  }

  /**
    * `create_user_sync` inserts a row with the default columns only for a new
    * id, and a truthy referrer is written whether or not the row is new.
    */
  lemma CreateUserEffect(db: Db, uid: int, name: string, referrer: Option<int>)
    ensures var d := CreateUser(db, uid, name, referrer);
      && d.users.Keys == db.users.Keys + {uid}
      && (forall u :: u in db.users && u != uid ==> d.users[u] == db.users[u])
      && (uid !in db.users ==> d.users[uid].(referrer := None) == NewUser(name))
      && (uid in db.users ==> d.users[uid].(referrer := db.users[uid].referrer) == db.users[uid])
      && d.users[uid].referrer == (if referrer.Some? && referrer.value != 0 then referrer
                                   else if uid in db.users then db.users[uid].referrer else None)
      && d.(users := db.users) == db
  {
    CreateUserShape(db, uid, name, referrer);
    CreateUserRow(db, uid, name, referrer);
  }

  /** `create_user_sync` touches only the row of `uid`, which exists afterwards. */
  lemma CreateUserShape(db: Db, uid: int, name: string, referrer: Option<int>)
    ensures var d := CreateUser(db, uid, name, referrer);
      && d.users.Keys == db.users.Keys + {uid}
      && (forall u :: u in db.users && u != uid ==> d.users[u] == db.users[u])
      && d.(users := db.users) == db
  {
  }

  /** The row of `uid` after `create_user_sync`: the old or default columns, and the referrer. */
  lemma CreateUserRow(db: Db, uid: int, name: string, referrer: Option<int>)
    ensures var d := CreateUser(db, uid, name, referrer);
      && uid in d.users
      && (uid !in db.users ==> d.users[uid].(referrer := None) == NewUser(name))
      && (uid in db.users ==> d.users[uid].(referrer := db.users[uid].referrer) == db.users[uid])
      && d.users[uid].referrer == (if referrer.Some? && referrer.value != 0 then referrer
                                   else if uid in db.users then db.users[uid].referrer else None)
  {
    var users := if uid in db.users then db.users else db.users[uid := NewUser(name)];
    assert users[uid] == if uid in db.users then db.users[uid] else NewUser(name);
  }

  /** A setting reads back as written and no other key changes. */
  lemma SettingRoundTrip(db: Db, key: string, value: string, other: string)
    ensures GetSetting(SetSetting(db, key, value), key) == Some(value)
    ensures other != key ==> GetSetting(SetSetting(db, key, value), other) == GetSetting(db, other)
  {
  }

  // ================================================================ queue

  /**
    * `add_to_queue` is insert-or-replace keyed by the user: afterwards the user
    * has exactly one entry, with the new fee and lobby message, and every other
    * entry is as before.
    */
  lemma AddToQueueReplaces(db: Db, uid: int, fee: real, lobbyMessageId: int)
    ensures var d := AddToQueue(db, uid, fee, lobbyMessageId);
      && d.queue.Keys == db.queue.Keys + {uid}
      && d.queue[uid] == QueueEntry(fee, lobbyMessageId)
      && (forall u :: u in db.queue && u != uid ==> d.queue[u] == db.queue[u])
      && d.(queue := db.queue) == db
  {
  }

  /** The queue grows by one entry for a user who was not waiting, and keeps its size otherwise. */
  lemma AddToQueueSize(db: Db, uid: int, fee: real, lobbyMessageId: int)
    ensures |AddToQueue(db, uid, fee, lobbyMessageId).queue| == if uid in db.queue then |db.queue| else |db.queue| + 1
  {
  }

  /** `remove_from_queue` deletes the user's entry, changes nothing when there is none, and is idempotent. */
  lemma RemoveFromQueueIdempotent(db: Db, uid: int)
    ensures uid !in RemoveFromQueue(db, uid).queue
    ensures forall u :: u in db.queue && u != uid ==> u in RemoveFromQueue(db, uid).queue
    ensures uid !in db.queue ==> RemoveFromQueue(db, uid) == db
    ensures RemoveFromQueue(RemoveFromQueue(db, uid), uid) == RemoveFromQueue(db, uid)
  {
    assert uid !in db.queue ==> db.queue - {uid} == db.queue;
  }

  /** Joining the queue and then cancelling gives back the tables, for a user who was not waiting. */
  lemma JoinThenCancel(db: Db, uid: int, fee: real, lobbyMessageId: int)
    requires uid !in db.queue
    ensures RemoveFromQueue(AddToQueue(db, uid, fee, lobbyMessageId), uid) == db
  {
    assert db.queue[uid := QueueEntry(fee, lobbyMessageId)] - {uid} == db.queue;
  }

  // ================================================================ matches

  /**
    * `create_match` adds one match under the drawn id, waiting for a code, with
    * the two players and the fee and nothing else set; the others are kept.
    * A drawn id that is already taken makes it fail and change nothing.
    */
  lemma CreateMatchFresh(db: Db, p1: int, p2: int, fee: real, mid: string)
    ensures var (d, ok) := CreateMatch(db, p1, p2, fee, mid);
      && (ok <==> mid !in db.matches)
      && (!ok ==> d == db)
      && (ok ==>
            && d.matches.Keys == db.matches.Keys + {mid}
            && |d.matches| == |db.matches| + 1
            && d.matches[mid] == Match(p1, p2, fee, WaitingForCode, None, None, None, None)
            && (forall k :: k in db.matches ==> d.matches[k] == db.matches[k])
            && d.(matches := db.matches) == db)
  {
  }

  /** `set_room_code` stores the code and sets `in_progress` whatever the status was, a finished match included. */
  lemma SetRoomCodeAnyStatus(db: Db, mid: string, code: string)
    ensures mid !in db.matches ==> SetRoomCode(db, mid, code) == db
    ensures mid in db.matches ==>
      var d := SetRoomCode(db, mid, code);
      && d.matches[mid] == db.matches[mid].(roomCode := Some(code), status := InProgress)
      && d.matches.Keys == db.matches.Keys
      && (forall k :: k in db.matches && k != mid ==> d.matches[k] == db.matches[k])
      && d.(matches := db.matches) == db
  {
  }

  /** `cancel_match` sets `cancelled` whatever the status was, a completed match included. */
  lemma CancelMatchAnyStatus(db: Db, mid: string)
    ensures mid !in db.matches ==> CancelMatch(db, mid) == db
    ensures mid in db.matches ==>
      var d := CancelMatch(db, mid);
      && d.matches[mid] == db.matches[mid].(status := Cancelled)
      && d.matches.Keys == db.matches.Keys
      && (forall k :: k in db.matches && k != mid ==> d.matches[k] == db.matches[k])
      && d.(matches := db.matches) == db
  {
  }

  /**
    * `submit_screenshot` fills the first slot iff the sender is player 1 and
    * the second slot otherwise, leaves the other slot alone, returns the
    * updated row, and returns nothing for an unknown match.
    */
  lemma SubmitScreenshotSlot(db: Db, mid: string, uid: int, fileId: string)
    ensures var (d, r) := SubmitScreenshot(db, mid, uid, fileId);
      && (r.None? <==> mid !in db.matches)
      && (r.None? ==> d == db)
      && (r.Some? ==>
            var m := db.matches[mid];
            && d.matches == db.matches[mid := r.value]
            && (uid == m.player1 ==> r.value == m.(shot1 := Some(fileId)))
            && (uid != m.player1 ==> r.value == m.(shot2 := Some(fileId)))
            && d.(matches := db.matches) == db)
  {
  }

  /** After both players of a match send a screenshot, both slots hold theirs and the match is ready for review. */
  lemma BothScreenshotsFilled(db: Db, mid: string, f1: string, f2: string)
    requires mid in db.matches && db.matches[mid].player1 != db.matches[mid].player2
    ensures var m := db.matches[mid];
      var (d1, _) := SubmitScreenshot(db, mid, m.player1, f1);
      var (d2, r) := SubmitScreenshot(d1, mid, m.player2, f2);
      r == Some(m.(shot1 := Some(f1), shot2 := Some(f2)))
  {
  }

  // ================================================================ settlement

  /** A match that is missing or already completed is refused and nothing changes; no other status is refused. */
  lemma ResolveRefusal(db: Db, mid: string, wid: int, elo: RatingRule)
    ensures var (d, s) := ResolveMatch(db, mid, wid, elo);
      && (s == Refused <==> mid !in db.matches || db.matches[mid].status == Completed)
      && (s != Settled ==> d == db)
  {
  }

  /** A settled match is completed with the given winner; no other match changes. */
  lemma ResolveCompletes(db: Db, mid: string, wid: int, elo: RatingRule)
    ensures var (d, s) := ResolveMatch(db, mid, wid, elo);
      s == Settled ==>
        && d.matches == db.matches[mid := db.matches[mid].(status := Completed, winner := Some(wid))]
        && d.queue == db.queue && d.settings == db.settings
        && d.withdrawals == db.withdrawals && d.deposits == db.deposits
  {
  }

  /** A second resolution of a settled match, whoever is named winner, is refused and changes nothing. */
  lemma ResolveTwiceRefused(db: Db, mid: string, wid: int, wid2: int, elo: RatingRule, elo2: RatingRule)
    requires ResolveMatch(db, mid, wid, elo).1 == Settled
    ensures var d := ResolveMatch(db, mid, wid, elo).0;
      ResolveMatch(d, mid, wid2, elo2) == (d, Refused)
  {
  }

  /** A settled match is counted once more among the completed matches. */
  lemma ResolveCountsOneCompletion(db: Db, mid: string, wid: int, elo: RatingRule)
    requires ResolveMatch(db, mid, wid, elo).1 == Settled
    ensures var d := ResolveMatch(db, mid, wid, elo).0;
      && CompletedMatches(d) == CompletedMatches(db) + {mid}
      && |CompletedMatches(d)| == |CompletedMatches(db)| + 1
  {
    var d := ResolveMatch(db, mid, wid, elo).0;
    assert mid !in CompletedMatches(db);
    assert CompletedMatches(d) == CompletedMatches(db) + {mid};
  }

  /** The two players of a match in which they are distinct and `wid` is one of them: the other is the loser. */
  ghost predicate Contest(db: Db, mid: string, wid: int, lid: int) {
    && mid in db.matches
    && db.matches[mid].status != Completed
    && db.matches[mid].player1 != db.matches[mid].player2
    && ((wid == db.matches[mid].player1 && lid == db.matches[mid].player2)
        || (wid == db.matches[mid].player2 && lid == db.matches[mid].player1))
    && wid in db.users && lid in db.users
  }

  /**
    * Settlement of a contest: the winner gains a win and the loser a loss, both
    * new ratings are computed from the two pre-match ratings, no other user
    * changes, and besides the winner's credit no money moves.
    */
  lemma ResolveRatings(db: Db, mid: string, wid: int, lid: int, elo: RatingRule)
    requires Contest(db, mid, wid, lid)
    ensures var (d, s) := ResolveMatch(db, mid, wid, elo);
      var w, l := db.users[wid], db.users[lid];
      && s == Settled
      && d.users.Keys == db.users.Keys
      && d.users[wid].(balance := w.balance) == w.(rating := elo(w.rating, l.rating, 1), wins := w.wins + 1)
      && d.users[lid] == l.(rating := elo(l.rating, w.rating, 0), losses := l.losses + 1)
      && (forall u :: u in db.users && u != wid && u != lid ==> d.users[u] == db.users[u])
  {
    var rw, rl := db.users[wid].rating, db.users[lid].rating;
    var rated := db.(users := RateContest(db.users, wid, lid, elo(rw, rl, 1), elo(rl, rw, 0)));
    ContestSettles(db, mid, wid, lid, elo);
    RateContestRows(db.users, wid, lid, elo(rw, rl, 1), elo(rl, rw, 0));
    SettleMatchUsers(rated, mid, db.matches[mid], wid);
  }

  /** A contest is settled by its two steps: the ratings, then the credit and the completed row. */
  lemma ContestSettles(db: Db, mid: string, wid: int, lid: int, elo: RatingRule)
    requires Contest(db, mid, wid, lid)
    ensures var rw, rl := db.users[wid].rating, db.users[lid].rating;
      ResolveMatch(db, mid, wid, elo)
        == (SettleMatch(db.(users := RateContest(db.users, wid, lid, elo(rw, rl, 1), elo(rl, rw, 0))), mid, db.matches[mid], wid), Settled)
  {
  }

  /** The rating step rewrites the two players' rows and no other. */
  lemma RateContestRows(users: map<int, User>, wid: int, lid: int, rw: int, rl: int)
    requires wid in users && lid in users && wid != lid
    ensures var r := RateContest(users, wid, lid, rw, rl);
      && r.Keys == users.Keys
      && r[wid] == users[wid].(rating := rw, wins := users[wid].wins + 1)
      && r[lid] == users[lid].(rating := rl, losses := users[lid].losses + 1)
      && (forall u :: u in users && u != wid && u != lid ==> r[u] == users[u])
  {
  }

  /** The rest of a settlement changes the winner's balance at most, and books the credit when the match is paid. */
  lemma SettleMatchUsers(rated: Db, mid: string, m: Match, wid: int)
    requires wid in rated.users
    ensures var d := SettleMatch(rated, mid, m, wid);
      && d.users.Keys == rated.users.Keys
      && d.users[wid] == rated.users[wid].(balance := d.users[wid].balance)
      && d.users[wid].balance == rated.users[wid].balance + (if m.fee > 0.0 then Payout(m.fee) else 0.0)
      && (forall u :: u in rated.users && u != wid ==> d.users[u] == rated.users[u])
      && d.transactions == rated.transactions + (if m.fee > 0.0 then [Transaction(wid, Payout(m.fee), "match_win", "")] else [])
  {
  }

  /**
    * The winner of a paid match is credited `fee*2*0.9` by one ledger entry;
    * a free match moves no money; the loser is never debited.
    */
  lemma ResolvePayout(db: Db, mid: string, wid: int, lid: int, elo: RatingRule)
    requires Contest(db, mid, wid, lid)
    ensures var (d, _) := ResolveMatch(db, mid, wid, elo);
      var fee := db.matches[mid].fee;
      && d.users[wid].balance == db.users[wid].balance + (if fee > 0.0 then Payout(fee) else 0.0)
      && d.users[lid].balance == db.users[lid].balance
      && d.transactions == db.transactions + (if fee > 0.0 then [Transaction(wid, Payout(fee), "match_win", "")] else [])
  {
    var rw, rl := db.users[wid].rating, db.users[lid].rating;
    var rated := db.(users := RateContest(db.users, wid, lid, elo(rw, rl, 1), elo(rl, rw, 0)));
    ContestSettles(db, mid, wid, lid, elo);
    RateContestRows(db.users, wid, lid, elo(rw, rl, 1), elo(rl, rw, 0));
    SettleMatchUsers(rated, mid, db.matches[mid], wid);
  }

  /** The credit is nine fifths of the fee. */
  lemma PayoutIsNineFifths(fee: real)
    ensures Payout(fee) == fee * 9.0 / 5.0
  {
  }

  /** Equal pre-match ratings with an exact rating rule: the winner gains 16 and the loser drops 16. */
  lemma EqualRatingsMoveSixteen(db: Db, mid: string, wid: int, lid: int, elo: RatingRule)
    requires Contest(db, mid, wid, lid)
    requires ExactAtEquality(elo)
    requires db.users[wid].rating == db.users[lid].rating
    ensures var d := ResolveMatch(db, mid, wid, elo).0;
      && d.users[wid].rating == db.users[wid].rating + 16
      && d.users[lid].rating == db.users[lid].rating - 16
  {
    ResolveRatings(db, mid, wid, lid, elo);
  }

  /**
    * A winner id that is neither player is not rejected: it is credited the
    * win, and player 1 is taken as the loser.
    */
  lemma ResolveOutsiderWins(db: Db, mid: string, wid: int, elo: RatingRule)
    requires mid in db.matches && db.matches[mid].status != Completed
    requires wid != db.matches[mid].player1 && wid != db.matches[mid].player2
    requires wid in db.users && db.matches[mid].player1 in db.users
    ensures var (d, s) := ResolveMatch(db, mid, wid, elo);
      var p1 := db.matches[mid].player1;
      && s == Settled
      && d.users[wid].wins == db.users[wid].wins + 1
      && d.users[p1].losses == db.users[p1].losses + 1
      && d.matches[mid].winner == Some(wid)
  {
  }

  /** Only `completed` is guarded: a cancelled match is settled and paid. */
  lemma ResolveCancelledMatch(db: Db, mid: string, wid: int, lid: int, elo: RatingRule)
    requires Contest(db, mid, wid, lid)
    requires db.matches[mid].status == Cancelled
    ensures ResolveMatch(db, mid, wid, elo).1 == Settled
  {
  }

  /**
    * The timeout cancels a completed match too, and a cancelled match can be
    * settled again: resolve, time out, resolve pays the winner twice.
    */
  lemma TimeoutThenResolvePaysTwice(db: Db, mid: string, wid: int, lid: int, elo: RatingRule)
    requires Contest(db, mid, wid, lid)
    requires db.matches[mid].fee > 0.0
    ensures var d1 := ResolveMatch(db, mid, wid, elo).0;
      var d2 := CancelMatch(d1, mid);
      var (d3, s) := ResolveMatch(d2, mid, wid, elo);
      && s == Settled
      && d3.users[wid].balance == db.users[wid].balance + 2.0 * Payout(db.matches[mid].fee)
  {
    var d1 := ResolveMatch(db, mid, wid, elo).0;
    ResolvePayout(db, mid, wid, lid, elo);
    var d2 := CancelMatch(d1, mid);
    assert Contest(d2, mid, wid, lid);
    ResolvePayout(d2, mid, wid, lid, elo);
  }

  // ================================================================ requests

  /** `create_withdrawal_request` appends one request, returns its id, and moves no money. */
  lemma CreateWithdrawalAppends(db: Db, uid: int, amount: real, channel: string, account: string)
    ensures var (d, id) := CreateWithdrawal(db, uid, amount, channel, account);
      && id == |d.withdrawals| && id >= 1
      && d.withdrawals[id - 1] == Withdrawal(uid, amount, channel, account)
      && d.withdrawals[..id - 1] == db.withdrawals
      && d.(withdrawals := db.withdrawals) == db
  {
  }

  /** `create_deposit_request` appends one request, returns its id, and leaves every balance as it was. */
  lemma CreateDepositAppends(db: Db, uid: int, txid: string, amount: real)
    ensures var (d, id) := CreateDeposit(db, uid, txid, amount);
      && id == |d.deposits| && id >= 1
      && d.deposits[id - 1] == Deposit(uid, txid, amount)
      && d.deposits[..id - 1] == db.deposits
      && d.(deposits := db.deposits) == db
  {
  }
}
