/**
  * The SQLite store of db.py as an object: one field per table, one method
  * per `*_sync` function performing its statements in order. Each method
  * that writes is proved to leave the tables as the matching function of
  * module `Tables` says; the read-only queries state their results directly.
  */
module Store {
  import opened Wrappers
  import opened Tables

  /** No element occurs twice. */
  predicate Distinct<T(==)>(s: seq<T>) {
    forall i, j :: 0 <= i < j < |s| ==> s[i] != s[j]
  }

  /** A sequence without repetitions has as many elements as its set. */
  lemma {:induction false} DistinctCardinality<T>(s: seq<T>)
    requires Distinct(s)
    ensures |set x | x in s| == |s|
  {
    if s != [] {
      var init := s[..|s| - 1];
      var last := s[|s| - 1];
      assert Distinct(init);
      DistinctCardinality(init);
      assert last !in init by {
        forall i | 0 <= i < |init| ensures init[i] != last { assert s[i] == init[i]; }
      }
      assert (set x | x in s) == (set x | x in init) + {last} by {
        assert s == init + [last];
      }
    }
  }

  /** A member of a non-empty set of ids. */
  lemma SomeMember(s: set<int>) returns (w: int)
    requires s != {}
    ensures w in s
  {
    if forall x: int :: x !in s {
      assert false;
    }
    w :| w in s;
  }

  /** Every non-empty set of users has one of highest rating. */
  lemma {:induction false} HighestRatedExists(users: map<int, User>, pool: set<int>)
    requires pool != {} && pool <= users.Keys
    ensures exists u :: u in pool && forall v :: v in pool ==> users[v].rating <= users[u].rating
    decreases |pool|
  {
    var x := SomeMember(pool);
    var rest := pool - {x};
    assert pool == rest + {x};
    if rest == {} {
      assert pool == {x};
    } else {
      HighestRatedExists(users, rest);
      var y :| y in rest && forall v :: v in rest ==> users[v].rating <= users[y].rating;
      if users[x].rating <= users[y].rating {
        assert forall v :: v in pool ==> v == x || v in rest;
      } else {
        assert forall v :: v in pool ==> users[v].rating <= users[x].rating by {
          forall v | v in pool ensures users[v].rating <= users[x].rating {
            if v != x { assert v in rest; }
          }
        }
      }
    }
  }

  /**
    * The state of the leaderboard loop: `ids` lists users of `pool` in order
    * of falling rating, `rows` their rows, and every user of `pool` is either
    * listed or still `remaining`, rated no higher than anyone listed.
    */
  ghost predicate Ranked(users: map<int, User>, pool: set<int>, remaining: set<int>, rows: seq<LeaderRow>, ids: seq<int>) {
    && remaining <= pool <= users.Keys
    && |rows| == |ids| && Distinct(ids)
    && |remaining| + |ids| == |pool|
    && (forall i :: 0 <= i < |ids| ==> ids[i] in pool && ids[i] !in remaining && rows[i] == RowOf(users[ids[i]]))
    && (forall u :: u in pool && u !in remaining ==> u in ids)
    && (forall i, j :: 0 <= i < j < |rows| ==> rows[j].rating <= rows[i].rating)
    && (forall u, i :: u in remaining && 0 <= i < |ids| ==> users[u].rating <= rows[i].rating)
  }

  /** Listing a highest rated remaining user next keeps the loop state. */
  lemma RankedStep(users: map<int, User>, pool: set<int>, remaining: set<int>, rows: seq<LeaderRow>, ids: seq<int>, u: int)
    requires Ranked(users, pool, remaining, rows, ids)
    requires u in remaining && forall v :: v in remaining ==> users[v].rating <= users[u].rating
    ensures Ranked(users, pool, remaining - {u}, rows + [RowOf(users[u])], ids + [u])
  {
  }

  class Database {
    var users: map<int, User>
    var queue: map<int, QueueEntry>
    var matches: map<string, Match>
    var transactions: seq<Transaction>
    var withdrawals: seq<Withdrawal>
    var deposits: seq<Deposit>
    var settings: map<string, string>

    /** The tables as one value. */
    function Snapshot(): Db
      reads this
    {
      Db(users, queue, matches, transactions, withdrawals, deposits, settings)
    }

    /** `init_db` on a new file: every table exists and is empty. */
    constructor ()
      ensures Snapshot() == EmptyDb
    {
      users, queue, matches := map[], map[], map[];
      transactions, withdrawals, deposits := [], [], [];
      settings := map[];
    }

    // ------------------------------------------------------------ settings

    /** `get_setting_sync`: the stored value, or nothing for a key never set. */
    method GetSetting(key: string) returns (value: Option<string>)
      ensures value.Some? <==> key in settings
      ensures value.Some? ==> value.value == settings[key]
    {
      value := if key in settings then Some(settings[key]) else None;
    }

    /** `set_setting_sync`. */
    method SetSetting(key: string, value: string)
      modifies this
      ensures Snapshot() == Tables.SetSetting(old(Snapshot()), key, value)
    {
      settings := settings[key := value];
    }

    // ------------------------------------------------------------ users

    /** `get_user_sync`: the user's row, or nothing. */
    method GetUser(uid: int) returns (u: Option<User>)
      ensures u.Some? <==> uid in users
      ensures u.Some? ==> u.value == users[uid]
    {
      u := if uid in users then Some(users[uid]) else None;
    }

    /** `create_user_sync`. */
    method CreateUser(uid: int, name: string, referrer: Option<int>)
      modifies this
      ensures Snapshot() == Tables.CreateUser(old(Snapshot()), uid, name, referrer)
    {
      if uid !in users {
        users := users[uid := NewUser(name)];
      }
      if referrer.Some? && referrer.value != 0 {
        users := users[uid := users[uid].(referrer := referrer)];
      }
    }

    /** `update_user_fields_sync`. */
    method UpdateUserFields(uid: int, fs: seq<Field>)
      modifies this
      ensures Snapshot() == Tables.UpdateUserFields(old(Snapshot()), uid, fs)
    {
      if uid in users {
        users := users[uid := ApplyFields(users[uid], fs)];
      }
    }

    /** `set_user_state`: `state` and `state_data` in one update. */
    method SetUserState(uid: int, s: Session)
      modifies this
      ensures Snapshot() == Tables.SetUserState(old(Snapshot()), uid, s)
    {
      UpdateUserFields(uid, [State(s)]);
    }

    /** `adjust_balance_sync`: the UPDATE, then the ledger INSERT. */
    method AdjustBalance(uid: int, amount: real, kind: string, note: string)
      modifies this
      ensures Snapshot() == Tables.AdjustBalance(old(Snapshot()), uid, amount, kind, note)
    {
      if uid in users {
        users := users[uid := users[uid].(balance := users[uid].balance + amount)];
      }
      transactions := transactions + [Transaction(uid, amount, kind, note)];
    }

    // ------------------------------------------------------------ queue

    /**
      * `find_opp_sync`: some waiter at exactly this fee other than `exclude`,
      * or nothing exactly when there is none. SQL's `LIMIT 1` without an
      * `ORDER BY` fixes no particular waiter, so neither does this.
      */
    method FindOpponent(fee: real, exclude: int) returns (w: Option<int>)
      ensures w.Some? ==> IsOpponent(queue, fee, exclude, w.value)
      ensures w.None? <==> !HasOpponent(queue, fee, exclude)
    {
      if HasOpponent(queue, fee, exclude) {
        var x :| x in queue && IsOpponent(queue, fee, exclude, x);
        w := Some(x);
      } else {
        w := None;
      }
    }

    /** `add_queue_sync`. */
    method AddToQueue(uid: int, fee: real, lobbyMessageId: int)
      modifies this
      ensures Snapshot() == Tables.AddToQueue(old(Snapshot()), uid, fee, lobbyMessageId)
    {
      queue := queue[uid := QueueEntry(fee, lobbyMessageId)];
    }

    /** `rem_queue_sync`. */
    method RemoveFromQueue(uid: int)
      modifies this
      ensures Snapshot() == Tables.RemoveFromQueue(old(Snapshot()), uid)
    {
      queue := queue - {uid};
    }

    // ------------------------------------------------------------ matches

    /**
      * `create_match_sync` with the id it draws given as `mid`; false when
      * the INSERT is rejected because the id is taken.
      */
    method CreateMatch(p1: int, p2: int, fee: real, mid: string) returns (ok: bool)
      modifies this
      ensures (Snapshot(), ok) == Tables.CreateMatch(old(Snapshot()), p1, p2, fee, mid)
    {
      if mid in matches {
        return false;
      }
      matches := matches[mid := NewMatch(p1, p2, fee)];
      ok := true;
    }

    /** `get_match_sync`: the match's row, or nothing. */
    method GetMatch(mid: string) returns (m: Option<Match>)
      ensures m.Some? <==> mid in matches
      ensures m.Some? ==> m.value == matches[mid]
    {
      m := if mid in matches then Some(matches[mid]) else None;
    }

    /** `set_room_code_sync`. */
    method SetRoomCode(mid: string, code: string)
      modifies this
      ensures Snapshot() == Tables.SetRoomCode(old(Snapshot()), mid, code)
    {
      if mid in matches {
        matches := matches[mid := matches[mid].(roomCode := Some(code), status := InProgress)];
      }
    }

    /** `submit_ss_sync`: read the match, choose the slot, write it, read the match again. */
    method SubmitScreenshot(mid: string, uid: int, fileId: string) returns (m: Option<Match>)
      modifies this
      ensures (Snapshot(), m) == Tables.SubmitScreenshot(old(Snapshot()), mid, uid, fileId)
    {
      var current := GetMatch(mid);
      if current.None? {
        return None;
      }
      if uid == current.value.player1 {
        matches := matches[mid := matches[mid].(shot1 := Some(fileId))];
      } else {
        matches := matches[mid := matches[mid].(shot2 := Some(fileId))];
      }
      m := GetMatch(mid);
    }

    /** `cancel_match_sync`. */
    method CancelMatch(mid: string)
      modifies this
      ensures Snapshot() == Tables.CancelMatch(old(Snapshot()), mid)
    {
      if mid in matches {
        matches := matches[mid := matches[mid].(status := Cancelled)];
      }
    }

    /**
      * `resolve_match_sync`: both new ratings are computed before either row
      * is written; the payout goes through `AdjustBalance`.
      */
    method ResolveMatch(mid: string, wid: int, elo: RatingRule) returns (s: Settlement)
      modifies this
      ensures (Snapshot(), s) == Tables.ResolveMatch(old(Snapshot()), mid, wid, elo)
    {
      var found := GetMatch(mid);
      if found.None? || found.value.status == Completed {
        return Refused;
      }
      var m := found.value;
      var lid := if wid == m.player1 then m.player2 else m.player1;
      var winner := GetUser(wid);
      var loser := GetUser(lid);
      if winner.None? || loser.None? {
        return MissingPlayer;
      }
      var nr1 := elo(winner.value.rating, loser.value.rating, 1);
      var nr2 := elo(loser.value.rating, winner.value.rating, 0);
      var rows := users[wid := users[wid].(rating := nr1, wins := users[wid].wins + 1)];
      rows := rows[lid := rows[lid].(rating := nr2, losses := rows[lid].losses + 1)];
      users := rows;
      if m.fee > 0.0 {
        AdjustBalance(wid, Payout(m.fee), "match_win", "");
      }
      matches := matches[mid := m.(status := Completed, winner := Some(wid))];
      s := Settled;
    }

    // ------------------------------------------------------------ requests

    /** `create_wd_sync`: the new request's id. */
    method CreateWithdrawal(uid: int, amount: real, channel: string, account: string) returns (id: int)
      modifies this
      ensures (Snapshot(), id) == Tables.CreateWithdrawal(old(Snapshot()), uid, amount, channel, account)
    {
      withdrawals := withdrawals + [Withdrawal(uid, amount, channel, account)];
      id := |withdrawals|;
    }

    /** `create_dep_sync`: the new request's id. */
    method CreateDeposit(uid: int, txid: string, amount: real) returns (id: int)
      modifies this
      ensures (Snapshot(), id) == Tables.CreateDeposit(old(Snapshot()), uid, txid, amount)
    {
      deposits := deposits + [Deposit(uid, txid, amount)];
      id := |deposits|;
    }

    // ------------------------------------------------------------ counts and listings

    /** `get_pending_deps_sync`: every deposit request is still pending. */
    method PendingDeposits() returns (n: nat)
      ensures n == |deposits|
    {
      n := |deposits|;
    }

    /** `get_pending_wds_sync`. */
    method PendingWithdrawals() returns (n: nat)
      ensures n == |withdrawals|
    {
      n := |withdrawals|;
    }

    /** `get_all_ids_sync`: every registered user once, in no particular order. */
    method AllRegisteredIds() returns (ids: seq<int>)
      ensures Distinct(ids)
      ensures forall u :: u in ids <==> u in users && users[u].registered
    {
      ids := [];
      var remaining := users.Keys;
      while remaining != {}
        invariant remaining <= users.Keys
        invariant Distinct(ids)
        invariant forall u :: u in ids <==> u in users && u !in remaining && users[u].registered
        decreases |remaining|
      {
        ghost var w := SomeMember(remaining);
        var u :| u in remaining;
        if users[u].registered {
          ids := ids + [u];
        }
        remaining := remaining - {u};
      }
    }

    /** `get_total_users_sync`: the number of registered users. */
    method TotalUsers() returns (n: nat)
      ensures n == |RegisteredUsers(Snapshot())|
    {
      var ids := AllRegisteredIds();
      DistinctCardinality(ids);
      assert (set x | x in ids) == RegisteredUsers(Snapshot());
      n := |ids|;
    }

    /** `get_total_matches_sync`: the number of completed matches. */
    method TotalCompletedMatches() returns (n: nat)
      ensures n == |CompletedMatches(Snapshot())|
    {
      var done: set<string> := {};
      var remaining := matches.Keys;
      n := 0;
      while remaining != {}
        invariant remaining <= matches.Keys
        invariant done == set mid | mid in matches && mid !in remaining && matches[mid].status == Completed
        invariant n == |done|
        decreases |remaining|
      {
        var mid :| mid in remaining;
        if matches[mid].status == Completed {
          done := done + {mid};
          n := n + 1;
        }
        remaining := remaining - {mid};
      }
      assert done == CompletedMatches(Snapshot());
    }

    /**
      * `get_top_wins_sync(limit)`: registered users by rating, highest first,
      * at most `limit` of them (all of them for a negative limit, as SQLite
      * reads `LIMIT -1`). `ids` names the user behind each row: each row is
      * a distinct registered user, and no registered user left out is rated
      * above one listed. Users of equal rating come in no fixed order.
      */
    method TopByRating(limit: int) returns (rows: seq<LeaderRow>, ghost ids: seq<int>)
      ensures |rows| == |ids| && Distinct(ids)
      ensures forall i :: 0 <= i < |ids| ==> ids[i] in RegisteredUsers(Snapshot()) && rows[i] == RowOf(users[ids[i]])
      ensures forall i, j :: 0 <= i < j < |rows| ==> rows[j].rating <= rows[i].rating
      ensures forall u, i :: u in RegisteredUsers(Snapshot()) && u !in ids && 0 <= i < |ids| ==> users[u].rating <= rows[i].rating
      ensures |rows| == if 0 <= limit < |RegisteredUsers(Snapshot())| then limit else |RegisteredUsers(Snapshot())|
    {
      var pool := RegisteredUsers(Snapshot());
      var remaining := pool;
      rows, ids := [], [];
      while remaining != {} && (limit < 0 || |rows| < limit)
        invariant pool == RegisteredUsers(Snapshot()) && Ranked(users, pool, remaining, rows, ids)
        invariant 0 <= limit ==> |rows| <= limit
        decreases |remaining|
      {
        HighestRatedExists(users, remaining);
        var u :| u in remaining && forall v :: v in remaining ==> users[v].rating <= users[u].rating;
        RankedStep(users, pool, remaining, rows, ids, u);
        rows, ids := rows + [RowOf(users[u])], ids + [u];
        remaining := remaining - {u};
      }
    }
  }
}
