/**
  * The handlers of bot.py as methods driving a `Store.Database`: each makes
  * the store calls its source makes, in the same order, and is proved to
  * leave the store and to answer as the matching function of module Flows.
  */
module Handlers {
  import opened Wrappers
  import opened PyStr
  import opened Tables
  import opened Callbacks
  import opened Store
  import Flows

  /** `ensure_user`. */
  method EnsureUser(s: Database, uid: int, name: string, referrer: Option<int>) returns (u: Option<User>)
    modifies s
    ensures (s.Snapshot(), u) == Flows.EnsureUser(old(s.Snapshot()), uid, name, referrer)
  {
    var existing := s.GetUser(uid);
    if existing.None? {
      s.CreateUser(uid, name, referrer);
    }
    u := s.GetUser(uid);
    if u.value.banned {
      u := None;
    }
  }

  /** `start_command`; `joined` is what the channel membership lookup says for a user who is not an admin. */
  method StartCommand(s: Database, uid: int, name: string, args: seq<string>, joined: bool)
    returns (outcome: Flows.StartOutcome)
    modifies s
    ensures (s.Snapshot(), outcome) == Flows.StartCommand(old(s.Snapshot()), uid, name, args, joined)
  {
    var arg := ParseStartArgs(args);
    if arg == BadReferrer {
      return Flows.BadReferral;
    }
    var u := EnsureUser(s, uid, name, if arg.Referrer? then Some(arg.id) else None);
    if u.None? {
      return Flows.StartIgnored;
    }
    if !(uid in Admins || joined) {
      return Flows.NotMember;
    }
    if u.value.registered {
      return Flows.Welcome;
    }
    s.SetUserState(uid, AwaitingIgn);
    outcome := Flows.AskIgn;
  }

  /**
    * `handle_play_callback`, the locked part included, with the match id and
    * the lobby post's id given. `pick` is the waiter the queue search
    * answered, a choice the store leaves open; it is a real waiter at this fee
    * whenever the search runs.
    */
  method HandlePlay(s: Database, uid: int, fee: real, mid: string, lobbyMessageId: int)
    returns (pick: Option<int>, outcome: Flows.PlayOutcome)
    modifies s
    ensures Flows.SearchesQueue(old(s.Snapshot()), uid, fee) ==> Flows.OpponentChoice(old(s.queue), fee, uid, pick)
    ensures (s.Snapshot(), outcome) == Flows.Play(old(s.Snapshot()), uid, fee, pick, mid, lobbyMessageId)
  {
    var u := s.GetUser(uid);
    if fee > 0.0 && u.None? {
      return None, Flows.PlayCrashed;
    }
    if fee > 0.0 && u.value.balance < fee {
      return None, Flows.LowBalance;
    }
    pick := s.FindOpponent(fee, uid);
    if pick.Some? {
      var w := pick.value;
      var p2 := s.GetUser(w);
      if p2.None? {
        return pick, Flows.PlayCrashed;
      }
      s.RemoveFromQueue(w);
      var ok := s.CreateMatch(uid, w, fee, mid);
      if !ok {
        return pick, Flows.IdCollision(w);
      }
      s.SetUserState(uid, AwaitingRoomCode(mid));
      outcome := Flows.Paired(w, mid);
    } else {
      if u.None? {
        return pick, Flows.PlayCrashed;
      }
      s.AddToQueue(uid, fee, lobbyMessageId);
      outcome := Flows.Queued;
    }
  }

  /** The registration step that takes the phone number. */
  method SavePhone(s: Database, uid: int, txt: string, welcomeGiven: bool)
    modifies s
    ensures s.Snapshot() == Flows.TextPhone(old(s.Snapshot()), uid, txt, welcomeGiven)
  {
    s.UpdateUserFields(uid, [PhoneNumber(txt), IsRegistered(true)]);
    if !welcomeGiven {
      s.AdjustBalance(uid, Flows.WelcomeBonus, "welcome_bonus", "");
      s.UpdateUserFields(uid, [WelcomeGiven(true)]);
    }
    s.SetUserState(uid, Idle);
  }

  /** The step that takes the account number and files the withdrawal. */
  method FileWithdrawal(s: Database, uid: int, amount: real, channel: string, txt: string)
    returns (outcome: Flows.TextOutcome)
    modifies s
    ensures (s.Snapshot(), outcome) == Flows.TextAccount(old(s.Snapshot()), uid, amount, channel, txt)
  {
    s.AdjustBalance(uid, -amount, "withdrawal_request", "");
    var id := s.CreateWithdrawal(uid, amount, channel, txt);
    s.SetUserState(uid, Idle);
    outcome := Flows.WithdrawalFiled(id);
  }

  /** The branches after the session's: menu, deposit pattern, AI fallback. */
  method OtherText(s: Database, uid: int, session: Session, txt: string) returns (outcome: Flows.TextOutcome)
    modifies s
    ensures (s.Snapshot(), outcome) == Flows.TextOther(old(s.Snapshot()), uid, session, txt)
  {
    if Flows.MenuButton(txt) {
      return Flows.MenuShown;
    }
    var dep := ParseDeposit(txt);
    if dep.Some? {
      var id := s.CreateDeposit(uid, dep.value.0, dep.value.1);
      return Flows.DepositFiled(id);
    }
    outcome := if session == Idle then Flows.AiReply else Flows.NoReply;
  }

  /** The session's branch of `main_text_handler`. */
  method SessionReply(s: Database, uid: int, u: User, txt: string) returns (outcome: Flows.TextOutcome)
    modifies s
    ensures (s.Snapshot(), outcome) == Flows.SessionReply(old(s.Snapshot()), uid, u, txt)
  {
    match u.session {
      case AwaitingIgn =>
        s.UpdateUserFields(uid, [IngameName(txt)]);
        s.SetUserState(uid, AwaitingPhone);
        outcome := Flows.NameSaved;
      case AwaitingPhone =>
        SavePhone(s, uid, txt, u.welcomeGiven);
        outcome := Flows.RegistrationDone;
      case AwaitingRoomCode(mid) =>
        s.SetRoomCode(mid, txt);
        var m := s.GetMatch(mid);
        if m.None? {
          return Flows.RoomCodeLost;
        }
        s.SetUserState(uid, Idle);
        outcome := Flows.RoomCodeSent(mid);
      case AwaitingWithdrawAmount =>
        var amount := ParseFloat(txt);
        if amount.None? {
          return Flows.AmountRejected;
        }
        s.SetUserState(uid, AwaitingWithdrawMethod(amount.value));
        outcome := Flows.AmountSaved;
      case AwaitingWithdrawAccount(amount, channel) =>
        outcome := FileWithdrawal(s, uid, amount, channel, txt);
      case Idle =>
        outcome := OtherText(s, uid, u.session, txt);
      case AwaitingWithdrawMethod(_) =>
        outcome := OtherText(s, uid, u.session, txt);
      case AwaitingScreenshot(_) =>
        outcome := OtherText(s, uid, u.session, txt);
    }
  }

  /** `main_text_handler` for the message text `raw`. */
  method HandleText(s: Database, uid: int, name: string, raw: string) returns (outcome: Flows.TextOutcome)
    modifies s
    ensures (s.Snapshot(), outcome) == Flows.OnText(old(s.Snapshot()), uid, name, raw)
  {
    var u := EnsureUser(s, uid, name, None);
    if u.None? {
      return Flows.TextIgnored;
    }
    var txt := Strip(raw);
    if txt == Flows.RulesButton {
      return Flows.ShowRules;
    }
    if txt == Flows.SupportButton {
      return Flows.SupportHint;
    }
    if txt == Flows.CancelButton {
      s.SetUserState(uid, Idle);
      s.RemoveFromQueue(uid);
      return Flows.CancelDone;
    }
    outcome := SessionReply(s, uid, u.value, txt);
  }

  /**
    * `cb_handler` for data `data` pressed by `presser`; a fee button runs
    * `HandlePlay` and answers its `pick`, every other button answers `None`.
    */
  method HandleCallback(s: Database, presser: int, data: string, mid: string, lobbyMessageId: int, elo: RatingRule)
    returns (pick: Option<int>, outcome: Flows.CallbackOutcome)
    modifies s
    ensures ParseCallback(data).PlayFee? && Flows.SearchesQueue(old(s.Snapshot()), presser, ParseCallback(data).fee) ==>
      Flows.OpponentChoice(old(s.queue), ParseCallback(data).fee, presser, pick)
    ensures (s.Snapshot(), outcome) == Flows.OnCallback(old(s.Snapshot()), presser, data, pick, mid, lobbyMessageId, elo)
  {
    pick := None;
    match ParseCallback(data) {
      case PlayFee(fee) =>
        var played;
        pick, played := HandlePlay(s, presser, fee, mid, lobbyMessageId);
        outcome := Flows.PlayResult(played);
      case DepositInfo =>
        outcome := Flows.DepositShown;
      case WithdrawStart =>
        s.SetUserState(presser, AwaitingWithdrawAmount);
        outcome := Flows.WithdrawAsked;
      case WithdrawMethod(channel) =>
        var u := s.GetUser(presser);
        if u.None? || Flows.PendingAmount(u.value.session).None? {
          return None, Flows.CallbackCrashed;
        }
        s.SetUserState(presser, AwaitingWithdrawAccount(Flows.PendingAmount(u.value.session).value, channel));
        outcome := Flows.MethodChosen;
      case CancelWait(u) =>
        s.RemoveFromQueue(u);
        outcome := Flows.QueueLeft(u);
      case AdminResolve(m, w) =>
        if presser !in Admins {
          return None, Flows.NotAdmin;
        }
        var settled := s.ResolveMatch(m, w, elo);
        outcome := Flows.Resolved(settled);
      case Malformed =>
        outcome := if StartsWith(data, "admin_res_") && presser !in Admins then Flows.NotAdmin else Flows.CallbackCrashed;
      case Unhandled =>
        outcome := Flows.Ignored;
    }
  }

  /** `photo_handler` for a photo whose largest size has the file id `fileId`. */
  method HandlePhoto(s: Database, uid: int, name: string, fileId: string) returns (outcome: Flows.PhotoOutcome)
    modifies s
    ensures (s.Snapshot(), outcome) == Flows.OnPhoto(old(s.Snapshot()), uid, name, fileId)
  {
    var u := EnsureUser(s, uid, name, None);
    if u.None? {
      return Flows.PhotoCrashed;
    }
    if !u.value.session.AwaitingScreenshot? {
      return Flows.NotAwaiting;
    }
    var mid := u.value.session.matchId;
    var m := s.SubmitScreenshot(mid, uid, fileId);
    s.SetUserState(uid, Idle);
    if m.None? {
      return Flows.ShotLost;
    }
    if Flows.Truthy(m.value.shot1) && Flows.Truthy(m.value.shot2) {
      outcome := Flows.ReviewRequested(mid, m.value.player1, m.value.player2);
    } else {
      outcome := Flows.ShotSaved;
    }
  }

  /** `check_match_timeout`, run by the job queue with the match id it was scheduled for. */
  method CheckMatchTimeout(s: Database, mid: string)
    modifies s
    ensures s.Snapshot() == Flows.CheckMatchTimeout(old(s.Snapshot()), mid)
  {
    s.CancelMatch(mid);
  }
}
