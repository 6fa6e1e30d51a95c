/**
  * The SQLite tables of db.py as values, and one pure function per `*_sync`
  * operation giving the tables after it runs. The class `Store.Database`
  * performs the same operations step by step on its fields and is proved
  * against these functions; the lemmas about them are in table_props.dfy.
  */
module Tables {
  import opened Wrappers

  /** `active_matches.status`. */
  datatype Status = WaitingForCode | InProgress | Completed | Cancelled

  /** `users.state` together with the `state_data` it carries. */
  datatype Session =
    | Idle
    | AwaitingIgn
    | AwaitingPhone
    | AwaitingRoomCode(matchId: string)
    | AwaitingWithdrawAmount
    | AwaitingWithdrawMethod(amount: real)
    | AwaitingWithdrawAccount(amount: real, channel: string)
    | AwaitingScreenshot(matchId: string)

  /** A `users` row; money is `real`. */
  datatype User = User(
    name: string,
    phone: Option<string>,
    registered: bool,
    balance: real,
    welcomeGiven: bool,
    wins: int,
    losses: int,
    session: Session,
    referrer: Option<int>,
    rating: int,
    banned: bool)

  /** A `matchmaking_queue` row; the table's key `user_id` is the map key. */
  datatype QueueEntry = QueueEntry(fee: real, lobbyMessageId: int)

  /** An `active_matches` row; the key `match_id` is the map key. */
  datatype Match = Match(
    player1: int,
    player2: int,
    fee: real,
    status: Status,
    roomCode: Option<string>,
    shot1: Option<string>,
    shot2: Option<string>,
    winner: Option<int>)

  /** A `transactions` row. */
  datatype Transaction = Transaction(userId: int, amount: real, kind: string, note: string)

  /** A `withdrawal_requests` row; its status is always "pending" here. */
  datatype Withdrawal = Withdrawal(userId: int, amount: real, channel: string, account: string)

  /** A `deposit_requests` row; its status is always "pending" here. */
  datatype Deposit = Deposit(userId: int, txid: string, amount: real)

  /** The whole database. The two request tables and the ledger are append-only lists. */
  datatype Db = Db(
    users: map<int, User>,
    queue: map<int, QueueEntry>,
    matches: map<string, Match>,
    transactions: seq<Transaction>,
    withdrawals: seq<Withdrawal>,
    deposits: seq<Deposit>,
    settings: map<string, string>)

  const EmptyDb := Db(map[], map[], map[], [], [], [], map[])

  /** The column default of `users.elo_rating`. */
  const DefaultRating := 1000

  // ---------------------------------------------------------------- settings

  /** `get_setting_sync`. */
  function GetSetting(db: Db, key: string): Option<string> {
    if key in db.settings then Some(db.settings[key]) else None
  }

  /** `set_setting_sync`: INSERT OR REPLACE. */
  function SetSetting(db: Db, key: string, value: string): Db {
    db.(settings := db.settings[key := value])
  }

  // ---------------------------------------------------------------- users

  /** The row `create_user_sync` inserts: only the name is given, every other column takes its default. */
  function NewUser(name: string): User {
    User(name, None, false, 0.0, false, 0, 0, Idle, None, DefaultRating, false)
  }

  /**
    * `create_user_sync`: INSERT OR IGNORE of a new row, then, for a truthy
    * referrer (present and non-zero), an UPDATE of `referrer_id` that also
    * reaches a row that already existed.
    */
  function CreateUser(db: Db, uid: int, name: string, referrer: Option<int>): Db {
    var users := if uid in db.users then db.users else db.users[uid := NewUser(name)];
    if referrer.Some? && referrer.value != 0 then
      db.(users := users[uid := users[uid].(referrer := referrer)])
    else db.(users := users)
  }

  /** One column assignment of `update_user_fields_sync`; `State` sets `state` and `state_data` together. */
  datatype Field =
    | IngameName(name: string)
    | PhoneNumber(phone: string)
    | IsRegistered(flag: bool)
    | WelcomeGiven(flag: bool)
    | State(session: Session)

  function ApplyField(u: User, f: Field): User {
    match f
    case IngameName(n) => u.(name := n)
    case PhoneNumber(p) => u.(phone := Some(p))
    case IsRegistered(b) => u.(registered := b)
    case WelcomeGiven(b) => u.(welcomeGiven := b)
    case State(s) => u.(session := s)
  }

  function ApplyFields(u: User, fs: seq<Field>): User
    decreases |fs|
  {
    if fs == [] then u else ApplyFields(ApplyField(u, fs[0]), fs[1..])
  }

  /** `update_user_fields_sync`: one UPDATE of the user's row; without a row nothing changes. */
  function UpdateUserFields(db: Db, uid: int, fs: seq<Field>): Db {
    if uid in db.users then db.(users := db.users[uid := ApplyFields(db.users[uid], fs)]) else db
  }

  /** `set_user_state`. */
  function SetUserState(db: Db, uid: int, s: Session): Db {
    UpdateUserFields(db, uid, [State(s)])
  }

  // ---------------------------------------------------------------- ledger

  /**
    * `adjust_balance_sync`: add `amount` to the user's balance (no row, no
    * change; no overdraft check) and append one transaction in any case.
    */
  function AdjustBalance(db: Db, uid: int, amount: real, kind: string, note: string): Db {
    db.(users := if uid in db.users then db.users[uid := db.users[uid].(balance := db.users[uid].balance + amount)]
                 else db.users,
        transactions := db.transactions + [Transaction(uid, amount, kind, note)])
  }

  /** The sum of the ledger's amounts for one user. */
  function LedgerSum(txs: seq<Transaction>, uid: int): real {
    if txs == [] then 0.0
    else
      var last := txs[|txs| - 1];
      LedgerSum(txs[..|txs| - 1], uid) + (if last.userId == uid then last.amount else 0.0)
  }

  /** Every user's balance is the sum of that user's ledger entries. */
  ghost predicate LedgerBalanced(db: Db) {
    forall u :: u in db.users ==> db.users[u].balance == LedgerSum(db.transactions, u)
  }

  // ---------------------------------------------------------------- queue

  /** `w` is a waiter `find_opp_sync` may return: same fee, a different user. */
  predicate IsOpponent(queue: map<int, QueueEntry>, fee: real, exclude: int, w: int) {
    w in queue && queue[w].fee == fee && w != exclude
  }

  predicate HasOpponent(queue: map<int, QueueEntry>, fee: real, exclude: int) {
    exists w | w in queue :: IsOpponent(queue, fee, exclude, w)
  }

  /** `add_queue_sync`: INSERT OR REPLACE keyed by the user. */
  function AddToQueue(db: Db, uid: int, fee: real, lobbyMessageId: int): Db {
    db.(queue := db.queue[uid := QueueEntry(fee, lobbyMessageId)])
  }

  /** `rem_queue_sync`. */
  function RemoveFromQueue(db: Db, uid: int): Db {
    db.(queue := db.queue - {uid})
  }

  // ---------------------------------------------------------------- matches

  /** A lowercase hexadecimal digit, as `uuid4()` prints them. */
  predicate IsHexDigit(c: char) { '0' <= c <= '9' || 'a' <= c <= 'f' }

  /** The ids `create_match_sync` draws: the first 8 characters of a printed `uuid4()`, all hexadecimal. */
  predicate IsMatchToken(s: string) {
    |s| == 8 && forall i :: 0 <= i < |s| ==> IsHexDigit(s[i])
  }

  /** The row `create_match_sync` inserts. */
  function NewMatch(p1: int, p2: int, fee: real): Match {
    Match(p1, p2, fee, WaitingForCode, None, None, None, None)
  }

  /**
    * `create_match_sync` with the drawn id `mid`: the INSERT fails (the
    * primary key is taken) when `mid` is already a match id.
    */
  function CreateMatch(db: Db, p1: int, p2: int, fee: real, mid: string): (Db, bool) {
    if mid in db.matches then (db, false)
    else (db.(matches := db.matches[mid := NewMatch(p1, p2, fee)]), true)
  }

  /** `get_match_sync`. */
  function GetMatch(db: Db, mid: string): Option<Match> {
    if mid in db.matches then Some(db.matches[mid]) else None
  }

  /** `set_room_code_sync`: whatever the status, store the code and set `in_progress`. */
  function SetRoomCode(db: Db, mid: string, code: string): Db {
    if mid in db.matches then
      db.(matches := db.matches[mid := db.matches[mid].(roomCode := Some(code), status := InProgress)])
    else db
  }

  /** `submit_ss_sync`: the first slot for player 1, the second for anyone else; the updated row is returned. */
  function SubmitScreenshot(db: Db, mid: string, uid: int, fileId: string): (Db, Option<Match>) {
    if mid !in db.matches then (db, None)
    else
      var m := db.matches[mid];
      var m' := if uid == m.player1 then m.(shot1 := Some(fileId)) else m.(shot2 := Some(fileId));
      (db.(matches := db.matches[mid := m']), Some(m'))
  }

  /** `cancel_match_sync`: whatever the status. */
  function CancelMatch(db: Db, mid: string): Db {
    if mid in db.matches then db.(matches := db.matches[mid := db.matches[mid].(status := Cancelled)]) else db
  }

  /**
    * `calculate_elo(player, opponent, score)`: a parameter of the model, since
    * the source computes it in floating point with a fractional power of ten.
    */
  type RatingRule = (int, int, int) -> int

  /** The one case of `calculate_elo` that is exact: equal ratings move by 16 either way. */
  ghost predicate ExactAtEquality(elo: RatingRule) {
    forall r :: elo(r, r, 1) == r + 16 && elo(r, r, 0) == r - 16
  }

  /** What `resolve_match_sync` answers: True, False, or an exception for a missing user row. */
  datatype Settlement = Settled | Refused | MissingPlayer

  /** The winner's credit `fee*2*0.9`: both stakes less a tenth. */
  function Payout(fee: real): real {
    fee * 2.0 * 0.9
  }

  /**
    * `resolve_match_sync`: refused for an unknown or already completed match;
    * otherwise the loser is player 2 when the winner is player 1 and player 1
    * in every other case, both new ratings come from the old ones, the winner
    * gains a win and the loser a loss, a paid match credits the winner through
    * `AdjustBalance`, and the match becomes completed with its winner.
    */
  function ResolveMatch(db: Db, mid: string, wid: int, elo: RatingRule): (Db, Settlement) {
    if mid !in db.matches || db.matches[mid].status == Completed then (db, Refused)
    else
      var m := db.matches[mid];
      var lid := if wid == m.player1 then m.player2 else m.player1;
      if wid !in db.users || lid !in db.users then (db, MissingPlayer)
      else
        var rw, rl := db.users[wid].rating, db.users[lid].rating;
        (SettleMatch(db.(users := RateContest(db.users, wid, lid, elo(rw, rl, 1), elo(rl, rw, 0))), mid, m, wid), Settled)
  }

  /** The rating columns after a contest: the winner takes rating `rw` and a win, the loser `rl` and a loss. */
  function RateContest(users: map<int, User>, wid: int, lid: int, rw: int, rl: int): map<int, User>
    requires wid in users && lid in users
  {
    var won := users[wid := users[wid].(rating := rw, wins := users[wid].wins + 1)];
    won[lid := won[lid].(rating := rl, losses := won[lid].losses + 1)]
  }

  /** The rest of a settlement once the ratings are written: the paid match's credit and the completed row. */
  function SettleMatch(rated: Db, mid: string, m: Match, wid: int): Db {
    var paid := if m.fee > 0.0 then AdjustBalance(rated, wid, Payout(m.fee), "match_win", "") else rated;
    paid.(matches := paid.matches[mid := m.(status := Completed, winner := Some(wid))])
  }

  // ---------------------------------------------------------------- requests

  /** `create_wd_sync`: append a pending request; its AUTOINCREMENT id is its position counted from one. */
  function CreateWithdrawal(db: Db, uid: int, amount: real, channel: string, account: string): (Db, int) {
    (db.(withdrawals := db.withdrawals + [Withdrawal(uid, amount, channel, account)]), |db.withdrawals| + 1)
  }

  /** `create_dep_sync`. */
  function CreateDeposit(db: Db, uid: int, txid: string, amount: real): (Db, int) {
    (db.(deposits := db.deposits + [Deposit(uid, txid, amount)]), |db.deposits| + 1)
  }

  // ---------------------------------------------------------------- counts

  /** `get_all_ids_sync`, and what `get_total_users_sync` counts. */
  function RegisteredUsers(db: Db): set<int> {
    set u | u in db.users && db.users[u].registered
  }

  /** A row of `get_top_wins_sync`. */
  datatype LeaderRow = LeaderRow(name: string, wins: int, rating: int)

  function RowOf(u: User): LeaderRow {
    LeaderRow(u.name, u.wins, u.rating)
  }

  /** What `get_total_matches_sync` counts. */
  function CompletedMatches(db: Db): set<string> {
    set mid | mid in db.matches && db.matches[mid].status == Completed
  }
}
