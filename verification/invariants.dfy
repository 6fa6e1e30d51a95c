/**
  * Two invariants of the whole bot, each kept by every handler of module
  * Flows: the ledger accounts for every balance (`Books`), and no user is
  * ever left waiting for a screenshot (`NoScreenshotWait`). The second one
  * means that `photo_handler` never reaches the store as the code stands.
  */
module Invariants {
  import opened Wrappers
  import opened PyStr
  import opened Tables
  import opened TableProps
  import opened Callbacks
  import opened Flows

  /**
    * Every balance is the sum of its user's ledger entries, and no entry is
    * booked to an id without a row (a row created later would start from
    * zero, see `TableProps.LedgerEntryBeforeUserRow`).
    */
  ghost predicate Books(db: Db) {
    && LedgerBalanced(db)
    && forall u :: u !in db.users ==> LedgerSum(db.transactions, u) == 0.0
  }

  /** No user's session is the one `photo_handler` waits for. */
  predicate NoScreenshotWait(db: Db) {
    forall u :: u in db.users ==> !db.users[u].session.AwaitingScreenshot?
  }

  /** A list of column assignments that does not set the screenshot session. */
  predicate NoScreenshotField(fs: seq<Field>) {
    forall i :: 0 <= i < |fs| ==> !(fs[i].State? && fs[i].session.AwaitingScreenshot?)
  }

  /** Both invariants hold of the empty database. */
  lemma EmptyDbInvariants()
    ensures Books(EmptyDb) && NoScreenshotWait(EmptyDb)
  {
  }

  // ================================================================ steps

  /** Column assignments never touch the balance. */
  lemma {:induction false} ApplyFieldsBalance(u: User, fs: seq<Field>)
    ensures ApplyFields(u, fs).balance == u.balance
    decreases |fs|
  {
    if fs != [] {
      ApplyFieldsBalance(ApplyField(u, fs[0]), fs[1..]);
    }
  }

  /** Column assignments that do not set the screenshot session do not produce it. */
  lemma {:induction false} ApplyFieldsSession(u: User, fs: seq<Field>)
    requires NoScreenshotField(fs) && !u.session.AwaitingScreenshot?
    ensures !ApplyFields(u, fs).session.AwaitingScreenshot?
    decreases |fs|
  {
    if fs != [] {
      assert !(fs[0].State? && fs[0].session.AwaitingScreenshot?);
      ApplyFieldsSession(ApplyField(u, fs[0]), fs[1..]);
    }
  }

  /** `update_user_fields` keeps the books, and the second invariant unless it sets the screenshot session. */
  lemma UpdateStep(db: Db, uid: int, fs: seq<Field>)
    ensures var d := UpdateUserFields(db, uid, fs);
      && (Books(db) ==> Books(d))
      && (NoScreenshotWait(db) && NoScreenshotField(fs) ==> NoScreenshotWait(d))
  {
    if uid in db.users {
      ApplyFieldsBalance(db.users[uid], fs);
      if NoScreenshotWait(db) && NoScreenshotField(fs) {
        ApplyFieldsSession(db.users[uid], fs);
      }
    }
  }

  /** `set_user_state` to any session but the screenshot one keeps both invariants. */
  lemma StateStep(db: Db, uid: int, s: Session)
    requires !s.AwaitingScreenshot?
    ensures var d := SetUserState(db, uid, s);
      && (Books(db) ==> Books(d))
      && (NoScreenshotWait(db) ==> NoScreenshotWait(d))
  {
    SetUserStateEffect(db, uid, s);
  }

  /** `adjust_balance` for a user with a row keeps both invariants. */
  lemma AdjustStep(db: Db, uid: int, amount: real, kind: string, note: string)
    requires uid in db.users
    ensures var d := AdjustBalance(db, uid, amount, kind, note);
      && (Books(db) ==> Books(d))
      && (NoScreenshotWait(db) ==> NoScreenshotWait(d))
  {
    var d := AdjustBalance(db, uid, amount, kind, note);
    if Books(db) {
      AdjustKeepsLedgerBalanced(db, uid, amount, kind, note);
      forall u | u !in d.users
        ensures LedgerSum(d.transactions, u) == 0.0
      {
        AdjustBalanceLedgerSum(db, uid, amount, kind, note, u);
      }
    }
  }

  /** `create_user` keeps both invariants: the new row is idle and has no entries yet. */
  lemma CreateStep(db: Db, uid: int, name: string, referrer: Option<int>)
    ensures var d := CreateUser(db, uid, name, referrer);
      && (Books(db) ==> Books(d))
      && (NoScreenshotWait(db) ==> NoScreenshotWait(d))
  {
    CreateUserEffect(db, uid, name, referrer);
    if Books(db) {
      CreateUserKeepsLedgerBalanced(db, uid, name, referrer);
    }
  }

  /** The rating step of a settlement keeps both invariants: it changes no balance and no session. */
  lemma RatingStep(db: Db, wid: int, lid: int, rw: int, rl: int)
    requires wid in db.users && lid in db.users
    ensures var rated := db.(users := RateContest(db.users, wid, lid, rw, rl));
      && (Books(db) ==> Books(rated))
      && (NoScreenshotWait(db) ==> NoScreenshotWait(rated))
  {
    RatingKeepsBalances(db.users, wid, lid, rw, rl);
  }

  /** `resolve_match` keeps both invariants: it pays only a winner with a row and touches no session. */
  lemma ResolveStep(db: Db, mid: string, wid: int, elo: RatingRule)
    ensures var d := ResolveMatch(db, mid, wid, elo).0;
      && (Books(db) ==> Books(d))
      && (NoScreenshotWait(db) ==> NoScreenshotWait(d))
  {
    if mid in db.matches && db.matches[mid].status != Completed {
      var m := db.matches[mid];
      var lid := if wid == m.player1 then m.player2 else m.player1;
      if wid in db.users && lid in db.users {
        var rw, rl := db.users[wid].rating, db.users[lid].rating;
        var rated := db.(users := RateContest(db.users, wid, lid, elo(rw, rl, 1), elo(rl, rw, 0)));
        RatingStep(db, wid, lid, elo(rw, rl, 1), elo(rl, rw, 0));
        if m.fee > 0.0 {
          AdjustStep(rated, wid, Payout(m.fee), "match_win", "");
        }
        assert ResolveMatch(db, mid, wid, elo).0 == SettleMatch(rated, mid, m, wid);
      }
    }
  }

  /** `ensure_user`, run before every text and photo, keeps both invariants. */
  lemma EnsureStep(db: Db, uid: int, name: string, referrer: Option<int>)
    ensures var d := EnsureUser(db, uid, name, referrer).0;
      && uid in d.users
      && (Books(db) ==> Books(d))
      && (NoScreenshotWait(db) ==> NoScreenshotWait(d))
  {
    CreateStep(db, uid, name, referrer);
  }

  // ================================================================ handlers

  /** `/start` keeps both invariants. */
  lemma StartKeepsInvariants(db: Db, uid: int, name: string, args: seq<string>, joined: bool)
    ensures var d := StartCommand(db, uid, name, args, joined).0;
      && (Books(db) ==> Books(d))
      && (NoScreenshotWait(db) ==> NoScreenshotWait(d))
  {
    var arg := ParseStartArgs(args);
    if arg != BadReferrer {
      var referrer := if arg.Referrer? then Some(arg.id) else None;
      EnsureStep(db, uid, name, referrer);
      StateStep(EnsureUser(db, uid, name, referrer).0, uid, AwaitingIgn);
    }
  }

  /** The pairing decision keeps both invariants: no money moves and the caller awaits a room code. */
  lemma PlayKeepsInvariants(db: Db, uid: int, fee: real, pick: Option<int>, mid: string, lobbyMessageId: int)
    ensures var d := Play(db, uid, fee, pick, mid, lobbyMessageId).0;
      && (Books(db) ==> Books(d))
      && (NoScreenshotWait(db) ==> NoScreenshotWait(d))
  {
    if pick.Some? {
      var created := CreateMatch(RemoveFromQueue(db, pick.value), uid, pick.value, fee, mid);
      StateStep(created.0, uid, AwaitingRoomCode(mid));
    }
  }

  /** The phone step keeps both invariants, the welcome bonus being booked to the user's own row. */
  lemma PhoneKeepsInvariants(db: Db, uid: int, txt: string, welcomeGiven: bool)
    requires uid in db.users
    ensures var d := TextPhone(db, uid, txt, welcomeGiven);
      && (Books(db) ==> Books(d))
      && (NoScreenshotWait(db) ==> NoScreenshotWait(d))
  {
    var fs := [PhoneNumber(txt), IsRegistered(true)];
    var reg := UpdateUserFields(db, uid, fs);
    UpdateStep(db, uid, fs);
    var paid := reg;
    if !welcomeGiven {
      AdjustStep(reg, uid, WelcomeBonus, "welcome_bonus", "");
      paid := UpdateUserFields(AdjustBalance(reg, uid, WelcomeBonus, "welcome_bonus", ""), uid, [WelcomeGiven(true)]);
      UpdateStep(AdjustBalance(reg, uid, WelcomeBonus, "welcome_bonus", ""), uid, [WelcomeGiven(true)]);
    }
    StateStep(paid, uid, Idle);
  }

  /** The account step keeps both invariants: the debit is booked to the user's own row. */
  lemma AccountKeepsInvariants(db: Db, uid: int, amount: real, channel: string, txt: string)
    requires uid in db.users
    ensures var d := TextAccount(db, uid, amount, channel, txt).0;
      && (Books(db) ==> Books(d))
      && (NoScreenshotWait(db) ==> NoScreenshotWait(d))
  {
    var debited := AdjustBalance(db, uid, -amount, "withdrawal_request", "");
    AdjustStep(db, uid, -amount, "withdrawal_request", "");
    StateStep(CreateWithdrawal(debited, uid, amount, channel, txt).0, uid, Idle);
  }

  /** The session's branch of a text keeps both invariants. */
  lemma SessionReplyKeepsInvariants(db: Db, uid: int, u: User, txt: string)
    requires uid in db.users
    ensures var d := SessionReply(db, uid, u, txt).0;
      && (Books(db) ==> Books(d))
      && (NoScreenshotWait(db) ==> NoScreenshotWait(d))
  {
    match u.session
    case AwaitingIgn =>
      NameKeepsInvariants(db, uid, txt);
    case AwaitingPhone =>
      PhoneKeepsInvariants(db, uid, txt, u.welcomeGiven);
    case AwaitingRoomCode(mid) =>
      RoomCodeKeepsInvariants(db, uid, mid, txt);
    case AwaitingWithdrawAmount =>
      AmountKeepsInvariants(db, uid, txt);
    case AwaitingWithdrawAccount(amount, channel) =>
      AccountKeepsInvariants(db, uid, amount, channel, txt);
    case _ =>
      OtherKeepsInvariants(db, uid, u.session, txt);
  }

  /** Storing the in-game name keeps both invariants. */
  lemma NameKeepsInvariants(db: Db, uid: int, txt: string)
    ensures var d := TextName(db, uid, txt);
      && (Books(db) ==> Books(d))
      && (NoScreenshotWait(db) ==> NoScreenshotWait(d))
  {
    UpdateStep(db, uid, [IngameName(txt)]);
    StateStep(UpdateUserFields(db, uid, [IngameName(txt)]), uid, AwaitingPhone);
  }

  /** Storing a room code keeps both invariants. */
  lemma RoomCodeKeepsInvariants(db: Db, uid: int, mid: string, txt: string)
    ensures var d := TextRoomCode(db, uid, mid, txt).0;
      && (Books(db) ==> Books(d))
      && (NoScreenshotWait(db) ==> NoScreenshotWait(d))
  {
    StateStep(SetRoomCode(db, mid, txt), uid, Idle);
  }

  /** Keeping a withdrawal amount in the session keeps both invariants. */
  lemma AmountKeepsInvariants(db: Db, uid: int, txt: string)
    ensures var d := TextAmount(db, uid, txt).0;
      && (Books(db) ==> Books(d))
      && (NoScreenshotWait(db) ==> NoScreenshotWait(d))
  {
    if ParseFloat(txt).Some? {
      StateStep(db, uid, AwaitingWithdrawMethod(ParseFloat(txt).value));
    }
  }

  /** The remaining sessions touch no user row and no ledger entry: at most a deposit request is filed. */
  lemma OtherKeepsInvariants(db: Db, uid: int, session: Session, txt: string)
    ensures var d := TextOther(db, uid, session, txt).0;
      d.users == db.users && d.transactions == db.transactions
  {
    var parsed := ParseDeposit(txt);
    if !MenuButton(txt) && parsed.Some? {
      assert TextOther(db, uid, session, txt).0 == CreateDeposit(db, uid, parsed.value.0, parsed.value.1).0;
    }
  }

  /** Every text message keeps both invariants. */
  lemma OnTextKeepsInvariants(db: Db, uid: int, name: string, raw: string)
    ensures var d := OnText(db, uid, name, raw).0;
      && (Books(db) ==> Books(d))
      && (NoScreenshotWait(db) ==> NoScreenshotWait(d))
  {
    var e := EnsureUser(db, uid, name, None);
    EnsureStep(db, uid, name, None);
    if e.1.Some? {
      ReplyKeepsInvariants(e.0, uid, e.1.value, Strip(raw));
    }
  }

  /** The buttons and the session's branch of a text keep both invariants. */
  lemma ReplyKeepsInvariants(db: Db, uid: int, u: User, txt: string)
    requires uid in db.users
    ensures var d := Reply(db, uid, u, txt).0;
      && (Books(db) ==> Books(d))
      && (NoScreenshotWait(db) ==> NoScreenshotWait(d))
  {
    if txt == CancelButton {
      StateStep(db, uid, Idle);
    } else if !FirstButton(txt) {
      SessionReplyKeepsInvariants(db, uid, u, txt);
    }
  }

  /** Every button press keeps both invariants. */
  lemma OnCallbackKeepsInvariants(db: Db, presser: int, data: string, pick: Option<int>, mid: string,
                                  lobbyMessageId: int, elo: RatingRule)
    ensures var d := OnCallback(db, presser, data, pick, mid, lobbyMessageId, elo).0;
      && (Books(db) ==> Books(d))
      && (NoScreenshotWait(db) ==> NoScreenshotWait(d))
  {
    DispatchKeepsInvariants(db, presser, data, ParseCallback(data), pick, mid, lobbyMessageId, elo);
  }

  /** Every branch of the button handler keeps both invariants. */
  lemma DispatchKeepsInvariants(db: Db, presser: int, data: string, c: Callback, pick: Option<int>, mid: string,
                                lobbyMessageId: int, elo: RatingRule)
    ensures var d := Dispatch(db, presser, data, c, pick, mid, lobbyMessageId, elo).0;
      && (Books(db) ==> Books(d))
      && (NoScreenshotWait(db) ==> NoScreenshotWait(d))
  {
    match c
    case PlayFee(fee) =>
      PlayKeepsInvariants(db, presser, fee, pick, mid, lobbyMessageId);
    case WithdrawStart =>
      StateStep(db, presser, AwaitingWithdrawAmount);
    case WithdrawMethod(channel) =>
      MethodKeepsInvariants(db, presser, channel);
    case AdminResolve(m, w) =>
      ResolveStep(db, m, w, elo);
    case _ =>
  }

  /** A method button keeps both invariants: it only moves the session on to the account step. */
  lemma MethodKeepsInvariants(db: Db, uid: int, channel: string)
    ensures var d := ChooseMethod(db, uid, channel).0;
      && (Books(db) ==> Books(d))
      && (NoScreenshotWait(db) ==> NoScreenshotWait(d))
  {
    if uid in db.users && PendingAmount(db.users[uid].session).Some? {
      StateStep(db, uid, AwaitingWithdrawAccount(PendingAmount(db.users[uid].session).value, channel));
    }
  }

  /** A photo keeps both invariants. */
  lemma OnPhotoKeepsInvariants(db: Db, uid: int, name: string, fileId: string)
    ensures var d := OnPhoto(db, uid, name, fileId).0;
      && (Books(db) ==> Books(d))
      && (NoScreenshotWait(db) ==> NoScreenshotWait(d))
  {
    var e := EnsureUser(db, uid, name, None);
    EnsureStep(db, uid, name, None);
    if e.1.Some? && e.1.value.session.AwaitingScreenshot? {
      StateStep(SubmitScreenshot(e.0, e.1.value.session.matchId, uid, fileId).0, uid, Idle);
    }
  }

  /** The timeout keeps both invariants: it only changes a match's status. */
  lemma TimeoutKeepsInvariants(db: Db, mid: string)
    ensures var d := CheckMatchTimeout(db, mid);
      && (Books(db) ==> Books(d))
      && (NoScreenshotWait(db) ==> NoScreenshotWait(d))
  {
  }

  /**
    * No handler ever sets the screenshot session, so from any state reached
    * from `EmptyDb` a photo stores nothing: it is ignored, or it raises for a
    * banned user; at most its sender's row is created.
    */
  lemma PhotoPathDead(db: Db, uid: int, name: string, fileId: string)
    requires NoScreenshotWait(db)
    ensures var (d, out) := OnPhoto(db, uid, name, fileId);
      && (out == NotAwaiting || out == PhotoCrashed)
      && d == EnsureUser(db, uid, name, None).0
      && d.matches == db.matches
  {
    EnsureStep(db, uid, name, None);
  }
}
