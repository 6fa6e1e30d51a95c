/**
  * The handlers of bot.py with the Telegram traffic removed: for each one, the
  * tables after it runs and what it answers, as pure functions of the tables
  * before it and of its inputs. The methods of handlers.dfy perform the same
  * store calls one by one and are proved to end where these functions say;
  * the lemmas about them are in flow_props.dfy.
  *
  * A handler that raises part-way (a `None` row indexed, a `json.loads` of a
  * non-object) keeps the store calls it already made and makes no more.
  */
module Flows {
  import opened Wrappers
  import opened PyStr
  import opened Tables
  import opened Callbacks

  /** The reply keyboard's buttons, as `main_text_handler` compares them with the stripped text. */
  const RulesButton := "\U{1F4DC} Rules"
  const SupportButton := "\U{1F916} AI Support"
  const CancelButton := "\U{274C} Cancel"
  const PlayButton := "\U{1F3AE} Play 1v1"
  const WalletButton := "\U{1F4B0} My Wallet"
  const ProfileButton := "\U{1F4CB} Profile"
  const LeaderboardButton := "\U{1F3C6} Leaderboard"

  /** The three buttons tested before the session is looked at. */
  predicate FirstButton(txt: string) {
    txt == RulesButton || txt == SupportButton || txt == CancelButton
  }

  /** The four menu buttons tested after the session branches. */
  predicate MenuButton(txt: string) {
    txt == PlayButton || txt == WalletButton || txt == ProfileButton || txt == LeaderboardButton
  }

  /** The registration bonus. */
  const WelcomeBonus: real := 10.0

  // ---------------------------------------------------------------- ensure_user

  /**
    * `ensure_user`: create the row when there is none (with the referrer, if
    * any), then answer the row, or nothing for a banned user.
    */
  function EnsureUser(db: Db, uid: int, name: string, referrer: Option<int>): (Db, Option<User>) {
    var db' := if uid in db.users then db else CreateUser(db, uid, name, referrer);
    var u := db'.users[uid];
    (db', if u.banned then None else Some(u))
  }

  // ---------------------------------------------------------------- /start

  datatype StartOutcome = BadReferral | StartIgnored | NotMember | Welcome | AskIgn

  /**
    * `start_command`: a `ref_` argument that `int` rejects stops it before
    * anything is stored; otherwise the user is ensured, a banned user and,
    * unless an admin, a user outside the channel (`joined`) get no further,
    * and an unregistered user is asked for an in-game name.
    */
  function StartCommand(db: Db, uid: int, name: string, args: seq<string>, joined: bool): (Db, StartOutcome) {
    var arg := ParseStartArgs(args);
    if arg == BadReferrer then (db, BadReferral)
    else
      var e := EnsureUser(db, uid, name, if arg.Referrer? then Some(arg.id) else None);
      if e.1.None? then (e.0, StartIgnored)
      else if !(uid in Admins || joined) then (e.0, NotMember)
      else if e.1.value.registered then (e.0, Welcome)
      else (SetUserState(e.0, uid, AwaitingIgn), AskIgn)
  }

  // ---------------------------------------------------------------- handle_play_callback

  datatype PlayOutcome =
    | LowBalance
    | Paired(opponent: int, matchId: string)
    | Queued
    | IdCollision(opponent: int)
    | PlayCrashed

  /** `pick` is what `find_opp_sync` may answer for this queue, fee and caller. */
  predicate OpponentChoice(queue: map<int, QueueEntry>, fee: real, uid: int, pick: Option<int>) {
    (pick.Some? ==> IsOpponent(queue, fee, uid, pick.value))
    && (pick.None? <==> !HasOpponent(queue, fee, uid))
  }

  /** The balance test passes (or is skipped for a free match), so the queue is searched. */
  predicate SearchesQueue(db: Db, uid: int, fee: real) {
    fee > 0.0 ==> uid in db.users && db.users[uid].balance >= fee
  }

  /**
    * `handle_play_callback` with the waiter `pick` that the search found, the
    * id `mid` the match would get and the lobby post's id `lobbyMessageId`:
    * a paid fee above the balance is refused; a waiter is taken out of the
    * queue and paired with the caller as player 1, who then owes the room
    * code; with no waiter the caller joins the queue. No balance moves.
    */
  function Play(db: Db, uid: int, fee: real, pick: Option<int>, mid: string, lobbyMessageId: int): (Db, PlayOutcome) {
    if fee > 0.0 && uid !in db.users then (db, PlayCrashed)
    else if fee > 0.0 && db.users[uid].balance < fee then (db, LowBalance)
    else match pick
      case Some(w) =>
        if w !in db.users then (db, PlayCrashed)
        else
          var removed := RemoveFromQueue(db, w);
          var created := CreateMatch(removed, uid, w, fee, mid);
          if !created.1 then (removed, IdCollision(w))
          else (SetUserState(created.0, uid, AwaitingRoomCode(mid)), Paired(w, mid))
      case None =>
        if uid !in db.users then (db, PlayCrashed)
        else (AddToQueue(db, uid, fee, lobbyMessageId), Queued)
  }

  // ---------------------------------------------------------------- main_text_handler

  datatype TextOutcome =
    | TextIgnored
    | ShowRules
    | SupportHint
    | CancelDone
    | NameSaved
    | RegistrationDone
    | RoomCodeSent(matchId: string)
    | RoomCodeLost
    | AmountSaved
    | AmountRejected
    | WithdrawalFiled(requestId: int)
    | MenuShown
    | DepositFiled(requestId: int)
    | AiReply
    | NoReply

  /** "❌ Cancel": clear the session, leave the queue. */
  function TextCancel(db: Db, uid: int): Db {
    RemoveFromQueue(SetUserState(db, uid, Idle), uid)
  }

  /** The in-game name is stored and the phone number asked for. */
  function TextName(db: Db, uid: int, txt: string): Db {
    SetUserState(UpdateUserFields(db, uid, [IngameName(txt)]), uid, AwaitingPhone)
  }

  /**
    * The phone number is stored and the user registered; the bonus and its
    * flag are written only when the flag read at the start was unset.
    */
  function TextPhone(db: Db, uid: int, txt: string, welcomeGiven: bool): Db {
    var reg := UpdateUserFields(db, uid, [PhoneNumber(txt), IsRegistered(true)]);
    var paid := if welcomeGiven then reg
                else UpdateUserFields(AdjustBalance(reg, uid, WelcomeBonus, "welcome_bonus", ""), uid, [WelcomeGiven(true)]);
    SetUserState(paid, uid, Idle)
  }

  /**
    * The room code is stored; for a known match its timeout is scheduled and
    * the session cleared, while an unknown one raises at `match['player2_id']`.
    */
  function TextRoomCode(db: Db, uid: int, mid: string, txt: string): (Db, TextOutcome) {
    var coded := SetRoomCode(db, mid, txt);
    if mid !in coded.matches then (coded, RoomCodeLost)
    else (SetUserState(coded, uid, Idle), RoomCodeSent(mid))
  }

  /** The amount is kept in the session when `float` reads it. */
  function TextAmount(db: Db, uid: int, txt: string): (Db, TextOutcome) {
    match ParseFloat(txt)
    case Some(amount) => (SetUserState(db, uid, AwaitingWithdrawMethod(amount)), AmountSaved)
    case None => (db, AmountRejected)
  }

  /** The amount is debited, the request filed with the text as account, and the session cleared. */
  function TextAccount(db: Db, uid: int, amount: real, channel: string, txt: string): (Db, TextOutcome) {
    var debited := AdjustBalance(db, uid, -amount, "withdrawal_request", "");
    var filed := CreateWithdrawal(debited, uid, amount, channel, txt);
    (SetUserState(filed.0, uid, Idle), WithdrawalFiled(filed.1))
  }

  /** No session branch applied: the menu, then the deposit pattern, then the AI when idle. */
  function TextOther(db: Db, uid: int, session: Session, txt: string): (Db, TextOutcome) {
    if MenuButton(txt) then (db, MenuShown)
    else match ParseDeposit(txt)
      case Some(dep) =>
        var filed := CreateDeposit(db, uid, dep.0, dep.1);
        (filed.0, DepositFiled(filed.1))
      case None => (db, if session == Idle then AiReply else NoReply)
  }

  /** The session's branch of `main_text_handler`, for a user `u` and the stripped text `txt`. */
  function SessionReply(db: Db, uid: int, u: User, txt: string): (Db, TextOutcome) {
    match u.session
    case AwaitingIgn => (TextName(db, uid, txt), NameSaved)
    case AwaitingPhone => (TextPhone(db, uid, txt, u.welcomeGiven), RegistrationDone)
    case AwaitingRoomCode(mid) => TextRoomCode(db, uid, mid, txt)
    case AwaitingWithdrawAmount => TextAmount(db, uid, txt)
    case AwaitingWithdrawAccount(amount, channel) => TextAccount(db, uid, amount, channel, txt)
    case _ => TextOther(db, uid, u.session, txt)
  }

  /** The three fixed buttons first, then the session's branch. */
  function Reply(db: Db, uid: int, u: User, txt: string): (Db, TextOutcome) {
    if txt == RulesButton then (db, ShowRules)
    else if txt == SupportButton then (db, SupportHint)
    else if txt == CancelButton then (TextCancel(db, uid), CancelDone)
    else SessionReply(db, uid, u, txt)
  }

  /** `main_text_handler` for the message text `raw` from `uid`. */
  function OnText(db: Db, uid: int, name: string, raw: string): (Db, TextOutcome) {
    var e := EnsureUser(db, uid, name, None);
    if e.1.None? then (e.0, TextIgnored) else Reply(e.0, uid, e.1.value, Strip(raw))
  }

  // ---------------------------------------------------------------- cb_handler

  datatype CallbackOutcome =
    | PlayResult(play: PlayOutcome)
    | DepositShown
    | WithdrawAsked
    | MethodChosen
    | QueueLeft(uid: int)
    | Resolved(settlement: Settlement)
    | NotAdmin
    | CallbackCrashed
    | Ignored

  /** What `json.loads(state_data)` of the session gives an amount for: the two withdrawal sessions. */
  function PendingAmount(s: Session): Option<real> {
    match s
    case AwaitingWithdrawMethod(amount) => Some(amount)
    case AwaitingWithdrawAccount(amount, _) => Some(amount)
    case _ => None
  }

  /** A method button: the amount kept in the session goes on with the method; any other session raises. */
  function ChooseMethod(db: Db, uid: int, channel: string): (Db, CallbackOutcome) {
    if uid !in db.users then (db, CallbackCrashed)
    else match PendingAmount(db.users[uid].session)
      case Some(amount) => (SetUserState(db, uid, AwaitingWithdrawAccount(amount, channel)), MethodChosen)
      case None => (db, CallbackCrashed)
  }

  /**
    * `cb_handler` for a button with data `data` pressed by `presser`; `pick`,
    * `mid` and `lobbyMessageId` serve a fee button as in `Play`, `elo` an
    * admin's decision.
    */
  function OnCallback(db: Db, presser: int, data: string, pick: Option<int>, mid: string, lobbyMessageId: int,
                      elo: RatingRule): (Db, CallbackOutcome) {
    Dispatch(db, presser, data, ParseCallback(data), pick, mid, lobbyMessageId, elo)
  }

  /** The branch of `cb_handler` taken for the parsed button `c`. */
  function Dispatch(db: Db, presser: int, data: string, c: Callback, pick: Option<int>, mid: string, lobbyMessageId: int,
                    elo: RatingRule): (Db, CallbackOutcome) {
    match c
    case PlayFee(fee) =>
      var r := Play(db, presser, fee, pick, mid, lobbyMessageId);
      (r.0, PlayResult(r.1))
    case DepositInfo => (db, DepositShown)
    case WithdrawStart => (SetUserState(db, presser, AwaitingWithdrawAmount), WithdrawAsked)
    case WithdrawMethod(channel) => ChooseMethod(db, presser, channel)
    case CancelWait(u) => (RemoveFromQueue(db, u), QueueLeft(u))
    case AdminResolve(m, w) =>
      if presser in Admins then
        var r := ResolveMatch(db, m, w, elo);
        (r.0, Resolved(r.1))
      else (db, NotAdmin)
    case Malformed => (db, if StartsWith(data, "admin_res_") && presser !in Admins then NotAdmin else CallbackCrashed)
    case Unhandled => (db, Ignored)
  }

  // ---------------------------------------------------------------- photo_handler

  datatype PhotoOutcome =
    | PhotoCrashed
    | NotAwaiting
    | ShotSaved
    | ReviewRequested(matchId: string, player1: int, player2: int)
    | ShotLost

  /** A column Python reads as true: present and not the empty string. */
  predicate Truthy(o: Option<string>) {
    o.Some? && o.value != ""
  }

  /**
    * `photo_handler`: only a user awaiting a screenshot has it stored, in the
    * match's slot for that user, and the session cleared; once both slots are
    * filled the admins are asked to decide. A banned user (`ensure_user`
    * answers `None`) raises at once; an unknown match raises after the
    * session is cleared.
    */
  function OnPhoto(db: Db, uid: int, name: string, fileId: string): (Db, PhotoOutcome) {
    var e := EnsureUser(db, uid, name, None);
    if e.1.None? then (e.0, PhotoCrashed)
    else match e.1.value.session
      case AwaitingScreenshot(mid) =>
        var sub := SubmitScreenshot(e.0, mid, uid, fileId);
        var cleared := SetUserState(sub.0, uid, Idle);
        (match sub.1
         case None => (cleared, ShotLost)
         case Some(m) =>
           (cleared, if Truthy(m.shot1) && Truthy(m.shot2) then ReviewRequested(mid, m.player1, m.player2) else ShotSaved))
      case _ => (e.0, NotAwaiting)
  }

  /** `check_match_timeout`, fifteen minutes after a room code: cancel the match, whatever its status. */
  function CheckMatchTimeout(db: Db, mid: string): Db {
    CancelMatch(db, mid)
  }
}
