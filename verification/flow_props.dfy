/**
  * What the handlers of bot.py promise, proved about the functions of module
  * Flows: the pairing decision, the registration and withdrawal dialogues,
  * the buttons, and two invariants every handler keeps (the ledger matches
  * the balances; nobody is ever left waiting to send a screenshot).
  */
module FlowProps {
  import opened Wrappers
  import opened PyStr
  import opened Tables
  import opened TableProps
  import opened Callbacks
  import opened Flows

  // ================================================================ ensure_user

  /**
    * `ensure_user` leaves an existing user's row alone, the referrer
    * included, and creates a missing one with the defaults (and a non-zero
    * referrer); it answers the row unless the user is banned.
    */
  lemma EnsureUserEffect(db: Db, uid: int, name: string, referrer: Option<int>)
    ensures var (d, u) := EnsureUser(db, uid, name, referrer);
      && uid in d.users
      && (uid in db.users ==> d == db)
      && (uid !in db.users ==>
            d == db.(users := db.users[uid := NewUser(name).(referrer := if referrer.Some? && referrer.value != 0 then referrer else None)]))
      && (u.Some? <==> !d.users[uid].banned)
      && (u.Some? ==> u.value == d.users[uid])
  {
  }

  // ================================================================ handle_play_callback

  /**
    * A paid fee is refused, with nothing changed, exactly when it exceeds
    * the caller's balance; a balance equal to the fee is enough.
    */
  lemma PlayBalanceCheck(db: Db, uid: int, fee: real, pick: Option<int>, mid: string, lobbyMessageId: int)
    requires uid in db.users && fee > 0.0
    ensures var (d, out) := Play(db, uid, fee, pick, mid, lobbyMessageId);
      && (out == LowBalance <==> db.users[uid].balance < fee)
      && (out == LowBalance ==> d == db)
  {
  }

  /**
    * With a waiter at the same fee, the waiter's entry (and no other) leaves
    * the queue, exactly one match is created with the caller as player 1,
    * and the caller then owes its room code; the caller's own entry, if
    * any, stays, and no money moves.
    */
  lemma PlayPairs(db: Db, uid: int, fee: real, w: int, mid: string, lobbyMessageId: int)
    requires SearchesQueue(db, uid, fee) && OpponentChoice(db.queue, fee, uid, Some(w))
    requires w in db.users && mid !in db.matches
    ensures var (d, out) := Play(db, uid, fee, Some(w), mid, lobbyMessageId);
      && out == Paired(w, mid)
      && w != uid && db.queue[w].fee == fee
      && d.queue == db.queue - {w}
      && (uid in db.queue ==> uid in d.queue && d.queue[uid] == db.queue[uid])
      && d.matches == db.matches[mid := NewMatch(uid, w, fee)]
      && d.users == (if uid in db.users then db.users[uid := db.users[uid].(session := AwaitingRoomCode(mid))] else db.users)
      && d.transactions == db.transactions
      && d.withdrawals == db.withdrawals && d.deposits == db.deposits && d.settings == db.settings
  {
    var removed := RemoveFromQueue(db, w);
    var created := CreateMatch(removed, uid, w, fee, mid);
    SetUserStateEffect(created.0, uid, AwaitingRoomCode(mid));
  }

  /** With no waiter at that fee, the caller joins the queue at it and nothing else changes. */
  lemma PlayQueues(db: Db, uid: int, fee: real, mid: string, lobbyMessageId: int)
    requires SearchesQueue(db, uid, fee) && OpponentChoice(db.queue, fee, uid, None)
    requires uid in db.users
    ensures var (d, out) := Play(db, uid, fee, None, mid, lobbyMessageId);
      && out == Queued
      && d == db.(queue := db.queue[uid := QueueEntry(fee, lobbyMessageId)])
      && !HasOpponent(db.queue, fee, uid)
  {
  }

  /**
    * Whatever happens, playing moves no money: the same users with the same
    * balances, and the same ledger.
    */
  lemma PlayMovesNoMoney(db: Db, uid: int, fee: real, pick: Option<int>, mid: string, lobbyMessageId: int)
    ensures var d := Play(db, uid, fee, pick, mid, lobbyMessageId).0;
      && d.users.Keys == db.users.Keys
      && (forall u :: u in db.users ==> d.users[u].balance == db.users[u].balance)
      && d.transactions == db.transactions
  {
    var (d, out) := Play(db, uid, fee, pick, mid, lobbyMessageId);
    if out.Paired? {
      var removed := RemoveFromQueue(db, out.opponent);
      var created := CreateMatch(removed, uid, out.opponent, fee, mid);
      SetUserStateEffect(created.0, uid, AwaitingRoomCode(mid));
    }
  }

  /** A waiter at another fee is never taken: its entry is still there, unchanged. */
  lemma PlayKeepsOtherFees(db: Db, uid: int, fee: real, pick: Option<int>, mid: string, lobbyMessageId: int, v: int)
    requires OpponentChoice(db.queue, fee, uid, pick)
    requires v in db.queue && db.queue[v].fee != fee && v != uid
    ensures var d := Play(db, uid, fee, pick, mid, lobbyMessageId).0;
      v in d.queue && d.queue[v] == db.queue[v]
  {
    var (d, out) := Play(db, uid, fee, pick, mid, lobbyMessageId);
    if out.Paired? {
      var removed := RemoveFromQueue(db, out.opponent);
      var created := CreateMatch(removed, uid, out.opponent, fee, mid);
      SetUserStateEffect(created.0, uid, AwaitingRoomCode(mid));
    }
  }

  // ================================================================ main_text_handler

  lemma ApplyOne(u: User, f: Field)
    ensures ApplyFields(u, [f]) == ApplyField(u, f)
  {
    assert [f][1..] == [];
  }

  lemma ApplyTwo(u: User, f: Field, g: Field)
    ensures ApplyFields(u, [f, g]) == ApplyField(ApplyField(u, f), g)
  {
    assert [f, g][1..] == [g];
    ApplyOne(ApplyField(u, f), g);
  }

  /** For a known, unbanned user, the text handler goes straight to the buttons and the session. */
  lemma TextFromKnownUser(db: Db, uid: int, name: string, raw: string)
    requires uid in db.users && !db.users[uid].banned
    ensures OnText(db, uid, name, raw) == Reply(db, uid, db.users[uid], Strip(raw))
    ensures !FirstButton(Strip(raw)) ==> OnText(db, uid, name, raw) == SessionReply(db, uid, db.users[uid], Strip(raw))
  {
  }

  /** A banned user's text changes nothing and gets no answer. */
  lemma BannedTextIgnored(db: Db, uid: int, name: string, raw: string)
    requires uid in db.users && db.users[uid].banned
    ensures OnText(db, uid, name, raw) == (db, TextIgnored)
  {
  }

  /** "❌ Cancel" clears the session and leaves the queue, whatever the session was. */
  lemma CancelTextResets(db: Db, uid: int, name: string, raw: string)
    requires uid in db.users && !db.users[uid].banned
    requires Strip(raw) == CancelButton
    ensures var (d, out) := OnText(db, uid, name, raw);
      && out == CancelDone
      && d == db.(users := db.users[uid := db.users[uid].(session := Idle)], queue := db.queue - {uid})
  {
    TextFromKnownUser(db, uid, name, raw);
    SetUserStateEffect(db, uid, Idle);
  }

  /** Awaiting the in-game name, any other text becomes the name and the phone number is asked for. */
  lemma NameStep(db: Db, uid: int, name: string, raw: string)
    requires uid in db.users && !db.users[uid].banned && db.users[uid].session == AwaitingIgn
    requires !FirstButton(Strip(raw))
    ensures var (d, out) := OnText(db, uid, name, raw);
      && out == NameSaved
      && d == db.(users := db.users[uid := db.users[uid].(name := Strip(raw), session := AwaitingPhone)])
  {
    TextFromKnownUser(db, uid, name, raw);
    var named := UpdateUserFields(db, uid, [IngameName(Strip(raw))]);
    ApplyOne(db.users[uid], IngameName(Strip(raw)));
    SetUserStateEffect(named, uid, AwaitingPhone);
  }

  /** No menu button is one of the three buttons tested first. */
  lemma MenuNotFirst(txt: string)
    requires MenuButton(txt)
    ensures !FirstButton(txt)
  {
    assert txt[0] != RulesButton[0] && txt[0] != SupportButton[0] && txt[0] != CancelButton[0];
  }

  /**
    * The menu is not consulted while a name is awaited: a menu button's text,
    * "🎮 Play 1v1" among them, becomes the name.
    */
  lemma MenuTextBecomesName(db: Db, uid: int, name: string, raw: string)
    requires uid in db.users && !db.users[uid].banned && db.users[uid].session == AwaitingIgn
    requires MenuButton(Strip(raw))
    ensures var (d, out) := OnText(db, uid, name, raw);
      out == NameSaved && uid in d.users && d.users[uid].name == Strip(raw)
  {
    MenuNotFirst(Strip(raw));
    NameStep(db, uid, name, raw);
  }

  /**
    * Awaiting the phone number, the text becomes the number and the user is
    * registered; the bonus of 10 is credited, with its ledger entry, only if
    * it was never given, and is then marked given; the session is cleared.
    */
  lemma PhoneStep(db: Db, uid: int, name: string, raw: string)
    requires uid in db.users && !db.users[uid].banned && db.users[uid].session == AwaitingPhone
    requires !FirstButton(Strip(raw))
    ensures var (d, out) := OnText(db, uid, name, raw);
      var u := db.users[uid];
      && out == RegistrationDone
      && d.users == db.users[uid := u.(phone := Some(Strip(raw)), registered := true, welcomeGiven := true, session := Idle,
                                       balance := u.balance + (if u.welcomeGiven then 0.0 else WelcomeBonus))]
      && d.transactions == db.transactions + (if u.welcomeGiven then [] else [Transaction(uid, WelcomeBonus, "welcome_bonus", "")])
      && d.(users := db.users, transactions := db.transactions) == db
  {
    TextFromKnownUser(db, uid, name, raw);
    var txt := Strip(raw);
    var u := db.users[uid];
    var fs := [PhoneNumber(txt), IsRegistered(true)];
    ApplyTwo(u, PhoneNumber(txt), IsRegistered(true));
    var reg := UpdateUserFields(db, uid, fs);
    if !u.welcomeGiven {
      var bonus := AdjustBalance(reg, uid, WelcomeBonus, "welcome_bonus", "");
      ApplyOne(bonus.users[uid], WelcomeGiven(true));
      SetUserStateEffect(UpdateUserFields(bonus, uid, [WelcomeGiven(true)]), uid, Idle);
    } else {
      SetUserStateEffect(reg, uid, Idle);
    }
  }

  /**
    * The welcome bonus is paid at most once: going through the phone step a
    * second time credits nothing more.
    */
  lemma WelcomeBonusOnce(db: Db, uid: int, name: string, raw1: string, raw2: string)
    requires uid in db.users && !db.users[uid].banned && db.users[uid].session == AwaitingPhone
    requires !FirstButton(Strip(raw1)) && !FirstButton(Strip(raw2))
    ensures var d1 := OnText(db, uid, name, raw1).0;
      var d2 := OnText(SetUserState(d1, uid, AwaitingPhone), uid, name, raw2).0;
      && uid in d2.users
      && d2.users[uid].balance == db.users[uid].balance + (if db.users[uid].welcomeGiven then 0.0 else WelcomeBonus)
      && d2.users[uid].welcomeGiven
  {
    PhoneStep(db, uid, name, raw1);
    var d1 := OnText(db, uid, name, raw1).0;
    assert d1.users[uid].welcomeGiven && !d1.users[uid].banned;
    assert d1.users[uid].balance == db.users[uid].balance + (if db.users[uid].welcomeGiven then 0.0 else WelcomeBonus);
    SetUserStateEffect(d1, uid, AwaitingPhone);
    var again := SetUserState(d1, uid, AwaitingPhone);
    assert again.users[uid] == d1.users[uid].(session := AwaitingPhone);
    PhoneStep(again, uid, name, raw2);
  }

  /**
    * Awaiting a room code, the text is stored as the code of that match,
    * whatever its status, and the session cleared, with the timeout to
    * follow; for an unknown match nothing changes and the session stays.
    */
  lemma RoomCodeStep(db: Db, uid: int, name: string, raw: string, mid: string)
    requires uid in db.users && !db.users[uid].banned && db.users[uid].session == AwaitingRoomCode(mid)
    requires !FirstButton(Strip(raw))
    ensures var (d, out) := OnText(db, uid, name, raw);
      && (mid !in db.matches ==> d == db && out == RoomCodeLost)
      && (mid in db.matches ==>
            && out == RoomCodeSent(mid)
            && d == db.(users := db.users[uid := db.users[uid].(session := Idle)],
                        matches := db.matches[mid := db.matches[mid].(roomCode := Some(Strip(raw)), status := InProgress)]))
  {
    TextFromKnownUser(db, uid, name, raw);
    SetUserStateEffect(SetRoomCode(db, mid, Strip(raw)), uid, Idle);
  }

  /** Awaiting an amount, a number `float` reads is kept for the method step; anything else changes nothing. */
  lemma AmountStep(db: Db, uid: int, name: string, raw: string)
    requires uid in db.users && !db.users[uid].banned && db.users[uid].session == AwaitingWithdrawAmount
    requires !FirstButton(Strip(raw))
    ensures var (d, out) := OnText(db, uid, name, raw);
      match ParseFloat(Strip(raw))
      case Some(a) => out == AmountSaved && d == db.(users := db.users[uid := db.users[uid].(session := AwaitingWithdrawMethod(a))])
      case None => out == AmountRejected && d == db
  {
    TextFromKnownUser(db, uid, name, raw);
    AmountReply(db, uid, Strip(raw));
  }

  /** The amount branch on its own, for the stripped text. */
  lemma AmountReply(db: Db, uid: int, txt: string)
    requires uid in db.users && db.users[uid].session == AwaitingWithdrawAmount
    ensures var (d, out) := SessionReply(db, uid, db.users[uid], txt);
      match ParseFloat(txt)
      case Some(a) => out == AmountSaved && d == db.(users := db.users[uid := db.users[uid].(session := AwaitingWithdrawMethod(a))])
      case None => out == AmountRejected && d == db
  {
    match ParseFloat(txt)
    case Some(a) => SetUserStateEffect(db, uid, AwaitingWithdrawMethod(a));
    case None =>
  }

  /**
    * Awaiting the account number, the amount is debited with no balance
    * check, one pending request with that amount, method and account is
    * filed, and the session cleared.
    */
  lemma AccountStep(db: Db, uid: int, name: string, raw: string, amount: real, channel: string)
    requires uid in db.users && !db.users[uid].banned && db.users[uid].session == AwaitingWithdrawAccount(amount, channel)
    requires !FirstButton(Strip(raw))
    ensures var (d, out) := OnText(db, uid, name, raw);
      && out == WithdrawalFiled(|db.withdrawals| + 1)
      && d.users == db.users[uid := db.users[uid].(balance := db.users[uid].balance - amount, session := Idle)]
      && d.transactions == db.transactions + [Transaction(uid, -amount, "withdrawal_request", "")]
      && d.withdrawals == db.withdrawals + [Withdrawal(uid, amount, channel, Strip(raw))]
      && d.queue == db.queue && d.matches == db.matches && d.deposits == db.deposits && d.settings == db.settings
  {
    TextFromKnownUser(db, uid, name, raw);
    var debited := AdjustBalance(db, uid, -amount, "withdrawal_request", "");
    var filed := CreateWithdrawal(debited, uid, amount, channel, Strip(raw));
    SetUserStateEffect(filed.0, uid, Idle);
  }

  /** The sessions the state machine has no branch for. */
  predicate Unhandled(s: Session) {
    s.Idle? || s.AwaitingWithdrawMethod? || s.AwaitingScreenshot?
  }

  /**
    * Outside the handled sessions and the buttons, a deposit message files a
    * pending deposit and moves no money; any other text changes nothing, and
    * only an idle user gets the AI's answer.
    */
  lemma DepositStep(db: Db, uid: int, name: string, raw: string)
    requires uid in db.users && !db.users[uid].banned && Unhandled(db.users[uid].session)
    requires !FirstButton(Strip(raw)) && !MenuButton(Strip(raw))
    ensures var (d, out) := OnText(db, uid, name, raw);
      match ParseDeposit(Strip(raw))
      case Some(dep) =>
        out == DepositFiled(|db.deposits| + 1) && d == db.(deposits := db.deposits + [Deposit(uid, dep.0, dep.1)])
      case None =>
        d == db && (out == AiReply <==> db.users[uid].session == Idle) && (out != AiReply ==> out == NoReply)
  {
    TextFromKnownUser(db, uid, name, raw);
  }

  // ================================================================ cb_handler

  /** A fee button of the play menu runs the pairing decision at its fee. */
  lemma FeeButtonPlays(db: Db, presser: int, fee: nat, pick: Option<int>, mid: string, lobbyMessageId: int, elo: RatingRule)
    requires fee in PaidFees || fee == 0
    ensures var r := Play(db, presser, fee as real, pick, mid, lobbyMessageId);
      OnCallback(db, presser, PlayFeeData(fee), pick, mid, lobbyMessageId, elo) == (r.0, PlayResult(r.1))
  {
    MenuFeesParse(fee);
  }

  /** A cancel button removes the queue entry of the user it names, whoever presses it. */
  lemma CancelButtonAnyPresser(db: Db, presser: int, u: int, pick: Option<int>, mid: string, lobbyMessageId: int, elo: RatingRule)
    ensures OnCallback(db, presser, CancelData(u), pick, mid, lobbyMessageId, elo) == (db.(queue := db.queue - {u}), QueueLeft(u))
  {
    CancelRoundTrip(u);
  }

  /** Admin button data pressed by anyone outside the admins changes nothing. */
  lemma AdminButtonNeedsAdmin(db: Db, presser: int, data: string, pick: Option<int>, mid: string, lobbyMessageId: int, elo: RatingRule)
    requires StartsWith(data, "admin_res_") && presser !in Admins
    ensures OnCallback(db, presser, data, pick, mid, lobbyMessageId, elo) == (db, NotAdmin)
  {
    DispatchAdmin(data);
  }

  /** An admin's decision button for a match the store created settles that match for that winner. */
  lemma AdminButtonResolves(db: Db, presser: int, m: string, w: int, pick: Option<int>, mid: string, lobbyMessageId: int, elo: RatingRule)
    requires presser in Admins && IsMatchToken(m)
    ensures var r := ResolveMatch(db, m, w, elo);
      OnCallback(db, presser, AdminResolveData(m, w), pick, mid, lobbyMessageId, elo) == (r.0, Resolved(r.1))
  {
    MatchButtonsRoundTrip(m, w);
  }

  /** The withdraw button asks for an amount, from any session. */
  lemma WithdrawButton(db: Db, presser: int, pick: Option<int>, mid: string, lobbyMessageId: int, elo: RatingRule)
    ensures OnCallback(db, presser, "withdraw", pick, mid, lobbyMessageId, elo)
         == (SetUserState(db, presser, AwaitingWithdrawAmount), WithdrawAsked)
  {
    NotPrefix("withdraw", "play_fee_");
  }

  /**
    * A method button carries the amount kept in a withdrawal session on to
    * the account step with that method; from any other session, or without
    * a row, it raises and changes nothing.
    */
  lemma MethodButton(db: Db, presser: int, channel: string, pick: Option<int>, mid: string, lobbyMessageId: int, elo: RatingRule)
    requires '_' !in channel
    ensures var (d, out) := OnCallback(db, presser, WithdrawMethodData(channel), pick, mid, lobbyMessageId, elo);
      if presser in db.users && PendingAmount(db.users[presser].session).Some? then
        out == MethodChosen
        && d == db.(users := db.users[presser := db.users[presser].(session :=
                      AwaitingWithdrawAccount(PendingAmount(db.users[presser].session).value, channel))])
      else out == CallbackCrashed && d == db
  {
    WithdrawMethodRoundTrip(channel);
    if presser in db.users && PendingAmount(db.users[presser].session).Some? {
      SetUserStateEffect(db, presser, AwaitingWithdrawAccount(PendingAmount(db.users[presser].session).value, channel));
    }
  }

  /**
    * The whole withdrawal dialogue: the withdraw button (state `d1`), an
    * amount `float` reads as `a` (`d2`), a method button (`d3`), an account
    * (`d4`). The balance drops by `a` with no check against it, exactly one
    * request is filed, and the user is idle again.
    */
  lemma WithdrawalDialogue(db: Db, uid: int, name: string, amountText: string, a: real, channel: string, account: string,
                           pick: Option<int>, mid: string, lobbyMessageId: int, elo: RatingRule,
                           d1: Db, d2: Db, d3: Db, d4: Db)
    requires uid in db.users && !db.users[uid].banned
    requires ParseFloat(Strip(amountText)) == Some(a) && !FirstButton(Strip(amountText))
    requires '_' !in channel && !FirstButton(Strip(account))
    requires d1 == OnCallback(db, uid, "withdraw", pick, mid, lobbyMessageId, elo).0
    requires d2 == OnText(d1, uid, name, amountText).0
    requires d3 == OnCallback(d2, uid, WithdrawMethodData(channel), pick, mid, lobbyMessageId, elo).0
    requires d4 == OnText(d3, uid, name, account).0
    ensures uid in d4.users
    ensures d4.users[uid].balance == db.users[uid].balance - a
    ensures d4.users[uid].session == Idle
    ensures d4.withdrawals == db.withdrawals + [Withdrawal(uid, a, channel, Strip(account))]
  {
    WithdrawAsksAmount(db, uid, pick, mid, lobbyMessageId, elo, d1);
    AmountKept(d1, uid, name, amountText, a, d2);
    MethodKept(d2, uid, a, channel, pick, mid, lobbyMessageId, elo, d3);
    AccountStep(d3, uid, name, account, a, channel);
  }

  /** First step of the dialogue: the withdraw button only sets the session. */
  lemma WithdrawAsksAmount(db: Db, uid: int, pick: Option<int>, mid: string, lobbyMessageId: int, elo: RatingRule, d1: Db)
    requires uid in db.users
    requires d1 == OnCallback(db, uid, "withdraw", pick, mid, lobbyMessageId, elo).0
    ensures uid in d1.users && d1.users[uid] == db.users[uid].(session := AwaitingWithdrawAmount)
    ensures d1.withdrawals == db.withdrawals
  {
    WithdrawButton(db, uid, pick, mid, lobbyMessageId, elo);
    SetUserStateEffect(db, uid, AwaitingWithdrawAmount);
  }

  /** Second step: an amount that parses is kept in the session. */
  lemma AmountKept(d1: Db, uid: int, name: string, amountText: string, a: real, d2: Db)
    requires uid in d1.users && !d1.users[uid].banned && d1.users[uid].session == AwaitingWithdrawAmount
    requires ParseFloat(Strip(amountText)) == Some(a) && !FirstButton(Strip(amountText))
    requires d2 == OnText(d1, uid, name, amountText).0
    ensures uid in d2.users && d2.users[uid] == d1.users[uid].(session := AwaitingWithdrawMethod(a))
    ensures d2.withdrawals == d1.withdrawals
  {
    AmountStep(d1, uid, name, amountText);
  }

  /** Third step: the method button moves the kept amount on to the account step. */
  lemma MethodKept(d2: Db, uid: int, a: real, channel: string, pick: Option<int>, mid: string, lobbyMessageId: int, elo: RatingRule, d3: Db)
    requires uid in d2.users && d2.users[uid].session == AwaitingWithdrawMethod(a) && '_' !in channel
    requires d3 == OnCallback(d2, uid, WithdrawMethodData(channel), pick, mid, lobbyMessageId, elo).0
    ensures uid in d3.users && d3.users[uid] == d2.users[uid].(session := AwaitingWithdrawAccount(a, channel))
    ensures d3.withdrawals == d2.withdrawals
  {
    MethodButton(d2, uid, channel, pick, mid, lobbyMessageId, elo);
  }

  /**
    * The amount is not checked for sign: a "withdrawal" of a negative amount
    * credits the balance. Such amounts are typed easily: `-n` for any `n`
    * (`NegativeAmountParses`, `NegativeAmountNoButton`).
    */
  lemma NegativeWithdrawalCredits(db: Db, uid: int, name: string, amountText: string, a: real, channel: string, account: string,
                                  pick: Option<int>, mid: string, lobbyMessageId: int, elo: RatingRule,
                                  d1: Db, d2: Db, d3: Db, d4: Db)
    requires uid in db.users && !db.users[uid].banned
    requires ParseFloat(Strip(amountText)) == Some(a) && a < 0.0 && !FirstButton(Strip(amountText))
    requires '_' !in channel && !FirstButton(Strip(account))
    requires d1 == OnCallback(db, uid, "withdraw", pick, mid, lobbyMessageId, elo).0
    requires d2 == OnText(d1, uid, name, amountText).0
    requires d3 == OnCallback(d2, uid, WithdrawMethodData(channel), pick, mid, lobbyMessageId, elo).0
    requires d4 == OnText(d3, uid, name, account).0
    ensures uid in d4.users && d4.users[uid].balance > db.users[uid].balance
  {
    WithdrawalDialogue(db, uid, name, amountText, a, channel, account, pick, mid, lobbyMessageId, elo, d1, d2, d3, d4);
  }

  /** `-n`, stripped, is read by `float` as the negative number. */
  lemma NegativeAmountParses(n: nat)
    ensures Strip("-" + NatToDigits(n)) == "-" + NatToDigits(n)
    ensures ParseFloat("-" + NatToDigits(n)) == Some(-(n as real))
  {
    var t := "-" + NatToDigits(n);
    NatDigitsEndSolid(n);
    assert t[0] == '-' && t[|t| - 1] == NatToDigits(n)[|NatToDigits(n)| - 1];
    StripUnchanged(t);
    NegatedNat(n);
  }

  /** A text whose first character is not one of the three buttons' emoji is none of them. */
  lemma NoFirstButton(t: string)
    requires t != [] && t[0] != '\U{1F4DC}' && t[0] != '\U{1F916}' && t[0] != '\U{274C}'
    ensures !FirstButton(t)
  {
    assert RulesButton[0] == '\U{1F4DC}' && SupportButton[0] == '\U{1F916}' && CancelButton[0] == '\U{274C}';
  }

  /** `-n` is none of the fixed buttons. */
  lemma NegativeAmountNoButton(n: nat)
    ensures !FirstButton(Strip("-" + NatToDigits(n)))
  {
    NegativeAmountParses(n);
    NoFirstButton("-" + NatToDigits(n));
  }

  // ================================================================ /start

  /** A `ref_` argument that `int` rejects stops `/start` before anything is stored. */
  lemma StartBadReferral(db: Db, uid: int, name: string, args: seq<string>, joined: bool)
    requires ParseStartArgs(args) == BadReferrer
    ensures StartCommand(db, uid, name, args, joined) == (db, BadReferral)
  {
  }

  /**
    * A newcomer whose `/start` argument names a non-zero referrer (as a
    * referral link's does, see `ReferralRoundTrip`) gets a row with that
    * referrer and, once in the channel, is asked for an in-game name.
    */
  lemma StartNewcomer(db: Db, uid: int, name: string, args: seq<string>, id: int, joined: bool)
    requires uid !in db.users && id != 0 && (uid in Admins || joined)
    requires ParseStartArgs(args) == Referrer(id)
    ensures StartCommand(db, uid, name, args, joined)
      == (db.(users := db.users[uid := NewUser(name).(referrer := Some(id), session := AwaitingIgn)]), AskIgn)
  {
    var row := NewUser(name).(referrer := Some(id));
    var created := db.(users := db.users[uid := row]);
    NewcomerEnsured(db, uid, name, id);
    StartAsksName(db, uid, name, args, joined, created, row);
    SessionOfNewRow(db, uid, row, AwaitingIgn);
  }

  /** Setting the session of a row just put in place is putting the row with that session. */
  lemma SessionOfNewRow(db: Db, uid: int, row: User, s: Session)
    ensures SetUserState(db.(users := db.users[uid := row]), uid, s) == db.(users := db.users[uid := row.(session := s)])
  {
    var created := db.(users := db.users[uid := row]);
    SetUserStateEffect(created, uid, s);
    assert created.users[uid := row.(session := s)] == db.users[uid := row.(session := s)];
  }

  /** A newcomer with a non-zero referrer is ensured as the default row carrying it. */
  lemma NewcomerEnsured(db: Db, uid: int, name: string, id: int)
    requires uid !in db.users && id != 0
    ensures var row := NewUser(name).(referrer := Some(id));
      EnsureUser(db, uid, name, Some(id)) == (db.(users := db.users[uid := row]), Some(row))
  {
    var row := NewUser(name).(referrer := Some(id));
    assert CreateUser(db, uid, name, Some(id)) == db.(users := db.users[uid := row]) by {
      assert db.users[uid := NewUser(name)][uid := row] == db.users[uid := row];
    }
  }

  /** Once the user is ensured, unbanned, in the channel and unregistered, `/start` asks for the name. */
  lemma StartAsksName(db: Db, uid: int, name: string, args: seq<string>, joined: bool, d1: Db, u: User)
    requires ParseStartArgs(args).Referrer?
    requires EnsureUser(db, uid, name, Some(ParseStartArgs(args).id)) == (d1, Some(u))
    requires (uid in Admins || joined) && !u.registered
    ensures StartCommand(db, uid, name, args, joined) == (SetUserState(d1, uid, AwaitingIgn), AskIgn)
  {
  }

  /**
    * For a user who already has a row, `/start` never records a referrer and
    * changes at most the session, to awaiting the name when unregistered.
    */
  lemma StartExistingUser(db: Db, uid: int, name: string, args: seq<string>, joined: bool)
    requires uid in db.users
    ensures var (d, out) := StartCommand(db, uid, name, args, joined);
      && (out == AskIgn ==> d == db.(users := db.users[uid := db.users[uid].(session := AwaitingIgn)]))
      && (out != AskIgn ==> d == db)
      && (out == AskIgn <==>
            ParseStartArgs(args) != BadReferrer && !db.users[uid].banned && (uid in Admins || joined) && !db.users[uid].registered)
  {
    SetUserStateEffect(db, uid, AwaitingIgn);
  }

  // ================================================================ photo_handler

  /**
    * For a user awaiting a screenshot for `mid`, a photo fills that user's
    * slot of the match, clears the session, and asks for a review once both
    * slots hold a non-empty id; for an unknown match only the session is
    * cleared, and the handler then raises.
    */
  lemma PhotoStep(db: Db, uid: int, name: string, fileId: string, mid: string)
    requires uid in db.users && !db.users[uid].banned && db.users[uid].session == AwaitingScreenshot(mid)
    ensures var (d, out) := OnPhoto(db, uid, name, fileId);
      && d.users == db.users[uid := db.users[uid].(session := Idle)]
      && (mid !in db.matches ==> out == ShotLost && d.matches == db.matches)
      && (mid in db.matches ==>
            var m := db.matches[mid];
            var m' := if uid == m.player1 then m.(shot1 := Some(fileId)) else m.(shot2 := Some(fileId));
            && d.matches == db.matches[mid := m']
            && (out.ReviewRequested? <==> Truthy(m'.shot1) && Truthy(m'.shot2))
            && (out.ReviewRequested? ==> out == ReviewRequested(mid, m.player1, m.player2))
            && (!out.ReviewRequested? ==> out == ShotSaved))
      && d.queue == db.queue && d.transactions == db.transactions
  {
    var sub := SubmitScreenshot(db, mid, uid, fileId);
    SetUserStateEffect(sub.0, uid, Idle);
  }
}
