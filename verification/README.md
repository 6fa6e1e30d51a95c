# eFootball 1v1 bot: matchmaking, settlement and sessions in Dafny

This project models the core of a Telegram bot that runs paid and free
one-against-one eFootball matches. The model has these parts.

- **The SQLite store (`db.py`)** becomes two layers:
  - a value `Tables.Db`, with one pure function per `*_sync` operation;
  - a class `Store.Database`, whose methods update map and sequence fields in
    place and are proved to leave the same tables as those functions.

  The tables are users, the matchmaking queue, active matches, the
  transaction ledger, withdrawal and deposit requests, and settings.
- **The handlers (`bot.py`)** are `start_command`, `handle_play_callback`,
  `main_text_handler`, `cb_handler`, `photo_handler` and
  `check_match_timeout`.
  - Each is a method of module `Handlers` that makes the same store calls in
    the same order as the source.
  - Each is proved equal to a pure function of module `Flows`, which gives
    the new tables and what the handler answered.
  - Their parsers are pure functions in module `Callbacks`: the
    `_`-separated button data, the `ref_` start argument and the deposit
    pattern.
- **`utils.py`** contributes:
  - the sliding-window `RateLimiter`, as a class;
  - the validators and text helpers, as functions in module `TextUtils`.
- **Python's string primitives** (`strip`, `split`, `str(int)`, `int`,
  `float`) are modelled in module `PyStr`.

The model follows the code as written, not the intended design:
- a room code or a timeout reaches a match in any status;
- settlement refuses only a completed match;
- pairing leaves the caller's own queue entry in place;
- a withdrawal debits without a balance check;
- nothing sets the screenshot session that `photo_handler` waits for.

Several lemmas state these effects. Module `Invariants` proves two
invariants that every handler keeps:
- the ledger accounts for every balance;
- no user is ever awaiting a screenshot, so the evidence path never reaches
  the store.

Module `Scenarios` runs handlers in sequence.

The system's own description differs from the code in six places. The model
follows the code each time:
- **Fee debit.** The description expects the losing side to have paid its
  fee when it joined the queue. No fee is ever debited, so after a 50 match
  the loser still holds 100 (`Scenarios.MatchFromQueueToSettlement`).
- **One open match per user.** The description says a user is in at most
  one open match. Because pairing keeps the caller's entry, a user can be a
  player of two open matches (`Scenarios.CallerInTwoOpenMatches`).
- **Timeout on completed matches.** The description says the timeout is a
  no-op on a completed match. It cancels any match, and settlement then pays
  the winner a second time (`TableProps.TimeoutThenResolvePaysTwice`).
- **Room code status.** The description allows a room code only while the
  match waits for one. The code accepts it in any status
  (`TableProps.SetRoomCodeAnyStatus`).
- **Winner check.** The description requires the winner to be a player.
  Any id with a row is credited (`TableProps.ResolveOutsiderWins`).
- **Negative balances.** The description says a balance never goes
  negative. A withdrawal is debited unchecked, and a negative amount credits
  the balance (`FlowProps.NegativeWithdrawalCredits`).

## Model

Each `Store.Database` method's row also stands for the `Tables` function its
contract names, and each `Handlers` method's row for the `Flows` function its
contract names (`Handlers.HandleText` for `Flows.OnText`, and so on): the
method is proved to leave exactly the tables that function gives.

| member | source | states |
|---|---|---|
| PyStr.LStrip | bot.py:62 | the result is a suffix of the text that is empty or starts with a non-whitespace character, and every character dropped is whitespace |
| PyStr.RStrip | bot.py:62 | the result is a prefix of the text that is empty or ends with a non-whitespace character, and every character dropped is whitespace |
| PyStr.Strip | bot.py:62 | `strip()` never lengthens the text and leaves no whitespace at either end |
| PyStr.StripUnchanged | bot.py:62 | a text with no whitespace at either end is its own `strip()` |
| PyStr.Split | bot.py:164 | `split(c)` always yields at least one piece |
| PyStr.SplitPiecesClean | bot.py:226 | no piece of `split(c)` contains `c` |
| PyStr.SplitJoin | bot.py:230 | splitting the `c`-join of pieces without `c` gives the pieces back |
| PyStr.SplitConcat | bot.py:230 | splitting `x + c + y` gives the pieces of `x` followed by those of `y` |
| PyStr.JoinSplit | utils.py:99 | joining the pieces of `split(c)` with `c` restores the text |
| PyStr.WordLength | utils.py:99 | the first run of non-whitespace characters ends at whitespace or at the end, and is non-empty when the text starts with one |
| PyStr.Words | utils.py:99 | every piece of the whitespace `split()` is non-empty and contains no whitespace; `TextUtils.WordsAtSpace` and `TextUtils.WordsAfterWord` fix the pieces as the maximal non-whitespace runs, in order |
| PyStr.NatToDigits | bot.py:143 | `str(n)` of a natural number is a non-empty string of ASCII digits |
| PyStr.DigitsRoundTrip | bot.py:143 | the decimal value of `str(n)` is `n` |
| PyStr.IntToString | bot.py:205 | `str(n)` is non-empty, ends with a digit, has no whitespace at either end and no `_` |
| PyStr.IntRoundTrip | bot.py:226 | `int(str(n)) == n` for every integer |
| PyStr.ParseInt | bot.py:226 | `int` of the stripped text: a number comes only from non-blank text and a negative one only from a leading minus; `PyStr.IntRoundTrip` shows it reads back every `str(n)` |
| PyStr.ParseFloat | bot.py:97 | `float` of the stripped text: a number comes only from non-blank text and a negative one only from a leading minus; `PyStr.NegatedFloat` and `PyStr.DecimalOfNat` state its values |
| PyStr.ParseDecimal | bot.py:122 | `float` of an unsigned decimal is never negative |
| PyStr.DecimalOfNat | bot.py:164 | `float(str(n)) == n` for a natural number |
| PyStr.NegatedFloat | bot.py:97 | `float("-" + s)` is the negation of `float(s)` for an unsigned decimal `s` |
| PyStr.NegatedNat | bot.py:97 | `float("-" + str(n)) == -n` |
| TextUtils.Without | utils.py:54 | `replace(c, '')` leaves no `c` and never lengthens the text |
| TextUtils.WithoutCounts | utils.py:54 | `replace(c, '')` removes exactly the occurrences of `c`: every other character keeps its count |
| TextUtils.WithoutAbsent | utils.py:54 | `replace(c, '')` changes nothing when `c` does not occur |
| TextUtils.WithoutConcat | utils.py:54 | `replace(c, '')` works character by character: it distributes over concatenation |
| TextUtils.CleanPhone | utils.py:54 | dropping dashes and spaces leaves no dash or space and every other character as often as before |
| TextUtils.CleanPhoneConcat | utils.py:54 | cleaning a number distributes over concatenation |
| TextUtils.CleanPhoneKeepsOrder | utils.py:54 | around any one character, the cleaned number is the cleaned text before it, that character unless it is a dash or space, and the cleaned text after it, so the typed order is kept |
| TextUtils.CleanDigits | utils.py:54 | a number of digits alone is left as it is |
| TextUtils.ValidatePhoneNumber | utils.py:48-60 | empty input is rejected as empty; otherwise accepted iff the text without `-` and spaces is all digits of length 10 to 13, and an accepted result is exactly that cleaned text |
| TextUtils.SeparatedDigitsAccepted | utils.py:48-60 | two runs of digits around one dash or space, 10 to 13 digits in all, are accepted as the two runs joined in order |
| TextUtils.PlainDigitsAccepted | utils.py:54-60 | 10 to 13 plain digits are accepted unchanged |
| TextUtils.ValidateUsername | utils.py:76-88 | accepted iff 2 to 50 characters, each a word character, whitespace or `-`; too short and too long give their own rejections; an accepted name is returned stripped |
| TextUtils.BlankNameAccepted | utils.py:85-88 | any name of 2 to 50 whitespace characters passes validation and yields the empty name |
| TextUtils.PyPrefix | utils.py:94 | the slice `s[:k]` is a prefix of `s` whose length follows Python's rules for negative and oversized `k` |
| TextUtils.TruncateText | utils.py:91-95 | text no longer than the limit is returned unchanged; longer text comes back ending in `...` |
| TextUtils.TruncateFits | utils.py:91-95 | for a limit of at least 3 the result fits the limit, and a truncated result is exactly the limit long and keeps the first limit−3 characters |
| TextUtils.TruncateSmallLimitOverflows | utils.py:93-94 | below a limit of 3 the slice index goes negative and the result exceeds the limit: ("abcdef", 2) gives "abcde..." |
| TextUtils.JoinWordsTidy | utils.py:99 | joining whitespace-free non-empty words with single spaces leaves no whitespace at the ends and no two adjacent spaces |
| TextUtils.CleanText | utils.py:97-99 | `clean_text` output has no whitespace at either end and no two adjacent spaces, and has the same words as the input |
| TextUtils.WordsOfJoin | utils.py:99 | splitting a single-space join of words gives the same words |
| TextUtils.WordsAfterWord | utils.py:99 | a non-empty run of non-whitespace followed by whitespace or nothing is split off as one whole word |
| TextUtils.WordsAtSpace | utils.py:99 | `split()` cuts at every whitespace character: the words of `x + [c] + y` are those of `x` followed by those of `y` |
| TextUtils.WordsAfterBlank | utils.py:99 | leading whitespace adds no word |
| TextUtils.WordsAtBlank | utils.py:99 | any non-empty run of whitespace between two texts separates their words |
| TextUtils.CleanTextSeparates | utils.py:97-99 | two words with any run of whitespace between them come out of `clean_text` with exactly one space between them |
| TextUtils.CleanTextIdempotent | utils.py:97-99 | `clean_text` applied twice equals applying it once |
| TextUtils.Pad2 | utils.py:116 | `{n:02d}` for n < 100 is two digits whose value is n |
| TextUtils.MonthNamesHaveNoBlank | utils.py:107-108 | no month name contains a space |
| TextUtils.FormatDatetime | utils.py:105-116 | `format_datetime`'s day, Bengali month name, year with comma, and `hh:mm`; `TextUtils.FormatDatetimeSplits` and `TextUtils.FormatDatetimeFields` state what can be read back from it |
| TextUtils.FormatDatetimeSplits | utils.py:105-116 | the formatted date splits on spaces into day, month name, `year,` and `hh:mm` |
| TextUtils.FormatDatetimeFields | utils.py:105-116 | those four fields read back as the day, the month's name, the year followed by a comma, and the hour and minute as two digits each around a colon |
| RateLimit.Recent | utils.py:26-27 | the filter keeps every timestamp younger than the window and only such timestamps, and never lengthens the list |
| RateLimit.RecentSubMultiset | utils.py:26-27 | the filter adds nothing: the kept timestamps are a sub-multiset of the input |
| RateLimit.RecentConcat | utils.py:26-30 | filtering distributes over concatenation, so a timestamp appended later is filtered on its own |
| RateLimit.RecentIdempotent | utils.py:40-41 | filtering twice at the same moment equals filtering once |
| RateLimit.RateLimiter.constructor | utils.py:14-17 | a limiter starts with the given limit and window and no user's list |
| RateLimit.RateLimiter.IsAllowed | utils.py:19-32 | the user's list is filtered to the window; the call is allowed iff fewer than the limit remain, and then `now` is appended; no other user's list changes and no list exceeds the limit |
| RateLimit.RateLimiter.GetRemaining | utils.py:34-42 | an unknown user gets the limit and no entry is created; otherwise the list is filtered and the answer is max(0, limit − remaining); for a non-negative limit the answer lies in [0, limit]; no other user's list changes |
| Store.HighestRatedExists | db.py:251 | every non-empty set of users has a member with the highest rating |
| Store.Database.constructor | db.py:20-56 | a fresh store holds empty tables |
| Store.Database.GetSetting | db.py:77-81 | the stored value for the key, or none |
| Store.Database.SetSetting | db.py:84-87 | the tables afterwards are `Tables.SetSetting` of the old ones (insert or replace) |
| Store.Database.GetUser | db.py:91-95 | the user's row, or none |
| Store.Database.CreateUser | db.py:98-102 | the tables afterwards are `Tables.CreateUser` of the old ones: insert-or-ignore, then the referrer written for a truthy referrer |
| Store.Database.UpdateUserFields | db.py:105-110 | the tables afterwards are `Tables.UpdateUserFields` of the old ones |
| Store.Database.SetUserState | db.py:113 | the tables afterwards are `Tables.SetUserState` of the old ones |
| Store.Database.AdjustBalance | db.py:115-119 | the tables afterwards are `Tables.AdjustBalance` of the old ones |
| Store.Database.FindOpponent | db.py:123-127 | the answer is a waiter at that fee other than the excluded user, and none exactly when no such waiter exists; nothing changes |
| Store.Database.AddToQueue | db.py:130-133 | the tables afterwards are `Tables.AddToQueue` of the old ones |
| Store.Database.RemoveFromQueue | db.py:136-139 | the tables afterwards are `Tables.RemoveFromQueue` of the old ones |
| Store.Database.CreateMatch | db.py:142-147 | the tables and the success flag are `Tables.CreateMatch` of the old tables and the drawn id |
| Store.Database.GetMatch | db.py:156-160 | the match's row, or none |
| Store.Database.SetRoomCode | db.py:150-153 | the tables afterwards are `Tables.SetRoomCode` of the old ones |
| Store.Database.SubmitScreenshot | db.py:163-170 | the tables and the returned row are `Tables.SubmitScreenshot` of the old tables |
| Store.Database.CancelMatch | db.py:197-200 | the tables afterwards are `Tables.CancelMatch` of the old ones |
| Store.Database.ResolveMatch | db.py:177-194 | the tables and the answer are `Tables.ResolveMatch` of the old tables |
| Store.Database.CreateWithdrawal | db.py:204-208 | the tables and the new request's id are `Tables.CreateWithdrawal` of the old tables |
| Store.Database.CreateDeposit | db.py:211-215 | the tables and the new request's id are `Tables.CreateDeposit` of the old tables |
| Store.Database.PendingDeposits | db.py:231-234 | the count of deposit requests, all pending |
| Store.Database.PendingWithdrawals | db.py:237-240 | the count of withdrawal requests, all pending |
| Store.Database.AllRegisteredIds | db.py:243-246 | each registered user's id exactly once, and no other id |
| Store.Database.TotalUsers | db.py:219-222 | the number of registered users |
| Store.Database.TotalCompletedMatches | db.py:225-228 | the number of completed matches |
| Store.Database.TopByRating | db.py:249-252 | distinct registered users in descending rating, none left out rated above one listed, as many as the limit allows (all for a negative limit), each row the user's name, wins and rating |
| TableProps.AdjustBalanceEffect | db.py:115-119 | exactly the one user's balance moves, by exactly the amount (no overdraft check), and exactly one ledger entry with that amount and kind is appended; nothing else changes |
| TableProps.AdjustBalanceLedgerSum | db.py:115-119 | the ledger sum of the adjusted user moves by the amount; every other user's sum stays |
| TableProps.AdjustThenReverse | db.py:115-119 | adjusting by +x then −x restores every balance and leaves two ledger entries |
| TableProps.AdjustKeepsLedgerBalanced | db.py:115-119 | balances that equal their ledger sums still do after an adjustment |
| TableProps.RatingKeepsBalances | db.py:188-189 | the two rating updates of a settlement change no balance and no set of users |
| TableProps.ResolveKeepsLedgerBalanced | db.py:177-194 | settlement keeps every balance equal to its ledger sum |
| TableProps.CreateUserKeepsLedgerBalanced | db.py:98-102 | creating a user keeps the ledger balanced when no entry is booked to that id yet |
| TableProps.LedgerEntryBeforeUserRow | db.py:115-119 | an adjustment for an id without a row books an entry but moves no balance, so a row created later disagrees with its ledger |
| TableProps.SetUserStateEffect | db.py:113 | the session of an existing user is replaced and nothing else changes; an unknown user changes nothing |
| TableProps.AddToQueueSize | db.py:130-133 | the queue grows by one entry for a user who was not waiting and keeps its size otherwise |
| TableProps.CreateUserEffect | db.py:98-102 | a new id gets the default row; an existing row is kept; a truthy referrer is written even into an existing row; other rows and tables stay |
| TableProps.SettingRoundTrip | db.py:77-87 | a setting reads back as written and no other key changes |
| TableProps.AddToQueueReplaces | db.py:130-133 | afterwards the user has exactly one entry, with the new fee and lobby id; other entries and tables stay |
| TableProps.RemoveFromQueueIdempotent | db.py:136-139 | the user's entry is gone, others stay, absence changes nothing, and a second removal changes nothing |
| TableProps.JoinThenCancel | db.py:130-139 | joining then leaving restores the tables when the user was not waiting |
| TableProps.CreateMatchFresh | db.py:142-147 | with a free id exactly one match is added, waiting for a code with the given players and fee and no code, screenshots or winner, others unchanged; a taken id fails and changes nothing |
| TableProps.SetRoomCodeAnyStatus | db.py:150-153 | whatever the status, the code is stored and the match set in progress; nothing else changes |
| TableProps.CancelMatchAnyStatus | db.py:197-200 | whatever the status, completed included, the match becomes cancelled; nothing else changes |
| TableProps.SubmitScreenshotSlot | db.py:163-170 | player 1's photo fills the first slot and anyone else's the second, the other slot is kept, and an unknown match gives none and no change |
| TableProps.BothScreenshotsFilled | db.py:163-170 | after each player submits, the returned row holds both photos |
| TableProps.ResolveRefusal | db.py:177-180 | refused exactly for a missing or completed match, and then nothing changes |
| TableProps.ResolveCompletes | db.py:192-194 | a settled match is completed with the named winner; queue, settings and requests stay |
| TableProps.ResolveTwiceRefused | db.py:177-180 | a second settlement of the same match, with any winner, is refused and changes nothing |
| TableProps.ResolveCountsOneCompletion | db.py:225-228 | a settlement adds exactly one completed match |
| TableProps.ContestSettles | db.py:177-195 | a match with two known, distinct players that is not completed is settled by the rating step followed by the payout and the completed row |
| TableProps.RateContestRows | db.py:188-189 | the rating step rewrites the winner's row (new rating, one more win) and the loser's row (new rating, one more loss) and no other |
| TableProps.SettleMatchUsers | db.py:191-192 | after the ratings, only the winner's balance moves, by `fee*2*0.9` with one ledger entry for a paid match and not at all for a free one |
| TableProps.ResolveRatings | db.py:181-189 | the loser is the other player; both new ratings come from the two pre-match ratings; the winner gains a win, the loser a loss; nobody else changes |
| TableProps.ResolvePayout | db.py:191 | a paid match credits the winner `fee*2*0.9` by one ledger entry; the loser is never debited; a free match moves no money |
| TableProps.PayoutIsNineFifths | db.py:191 | the credit is nine fifths of the fee |
| TableProps.EqualRatingsMoveSixteen | db.py:173-189 | under equal ratings the winner gains 16 and the loser drops 16 |
| TableProps.ResolveOutsiderWins | db.py:182 | a winner id that is neither player is credited the win, with player 1 taken as the loser |
| TableProps.ResolveCancelledMatch | db.py:180 | a cancelled match is still settled |
| TableProps.TimeoutThenResolvePaysTwice | db.py:177-200 | settle, cancel by timeout, settle again: the winner is credited twice |
| TableProps.CreateWithdrawalAppends | db.py:204-208 | one request is appended and its id is its position counting from one; nothing else changes |
| TableProps.CreateDepositAppends | db.py:211-215 | one request is appended and its id is its position counting from one; nothing else changes |
| Callbacks.ParseCallback | bot.py:211-233 | the dispatch order of `cb_handler`: each kind of button only from its prefix, and unhandled exactly when no prefix or literal matches |
| Callbacks.ParseFee | bot.py:164 | a `play_fee_` button yields a fee or is malformed |
| Callbacks.ParseMethod | bot.py:222 | a `w_method_` button yields a method or is malformed |
| Callbacks.ParseCancel | bot.py:226 | a `cancel_` button yields a user id or is malformed |
| Callbacks.ParseAdmin | bot.py:230 | an `admin_res_` button yields a match and winner or is malformed |
| Callbacks.PlayFeeRoundTrip | bot.py:164 | `play_fee_{n}` reads back as the fee n |
| Callbacks.MenuFeesParse | bot.py:143-145 | each fee button of the play menu, the free one included, reads back as its fee |
| Callbacks.DispatchCancel | bot.py:225-226 | data starting `cancel_` reaches the cancel parse |
| Callbacks.DispatchAdmin | bot.py:228-230 | data starting `admin_res_` reaches the admin parse |
| Callbacks.DispatchMethod | bot.py:219-222 | data starting `w_method_` reaches the method parse |
| Callbacks.CancelRoundTrip | bot.py:187 | the cancel button `cancel_{uid}` reads back as that user |
| Callbacks.AdminResolveRoundTrip | bot.py:205-231 | `admin_res_{mid}_{uid}` reads back as that match and winner exactly when the id has no `_` |
| Callbacks.MatchButtonsRoundTrip | bot.py:205-231 | for an 8-hex-digit match id the review buttons read back as their match and winner |
| Callbacks.UnderscoreIdMisread | bot.py:230 | an id `x_k` is read as match `x` with winner `k` |
| Callbacks.WithdrawMethodRoundTrip | bot.py:219-222 | a `w_method_{name}` button reads back as that method when the name has no `_` |
| Callbacks.ParseStartArgs | bot.py:44 | a referrer is read exactly when the first argument starts `ref_` |
| Callbacks.ReferralRoundTrip | bot.py:44 | the argument `ref_{id}` reads back as referrer id |
| Callbacks.AlnumRun | bot.py:120 | the leading `[A-Za-z0-9]` run is maximal |
| Callbacks.DepositMatch | bot.py:120 | a match gives positions where the text is txid, whitespace, then an amount of the pattern's form |
| Callbacks.DepositMatchComplete | bot.py:120 | every text of that shape is matched at those positions |
| Callbacks.AmountParses | bot.py:122 | an amount matched by the pattern is read by `float` |
| Callbacks.ParseDeposit | bot.py:120-122 | accepted iff the pattern matches; the txid is non-empty ASCII alphanumerics and the amount is not negative |
| Callbacks.DepositRoundTrip | bot.py:120-122 | txid, whitespace and an amount of the pattern's form read back as that txid and amount |
| Callbacks.ThreeDecimalsRejected | bot.py:120 | any alphanumeric id, whitespace and an amount with three decimals is rejected, so no deposit is recorded |
| Handlers.EnsureUser | bot.py:19-26 | the tables and the answer are `Flows.EnsureUser`: a row is created only for an unknown id, and a banned user is answered with none |
| Handlers.StartCommand | bot.py:42-57 | the tables and the outcome are `Flows.StartCommand`; its properties are the `FlowProps.Start*` lemmas |
| Handlers.HandlePlay | bot.py:163-188 | the chosen waiter is one `find_opponent` may answer, and the tables and outcome are `Flows.Play`; see `FlowProps.Play*` |
| Handlers.SavePhone | bot.py:78-84 | the tables are `Flows.TextPhone`; see `FlowProps.PhoneStep` |
| Handlers.FileWithdrawal | bot.py:103-111 | the tables and outcome are `Flows.TextAccount`; see `FlowProps.AccountStep` |
| Handlers.OtherText | bot.py:113-133 | the tables and outcome are `Flows.TextOther`; see `FlowProps.DepositStep` |
| Handlers.SessionReply | bot.py:72-111 | the tables and outcome are `Flows.SessionReply`, one branch per session |
| Handlers.HandleText | bot.py:59-133 | the tables and outcome are `Flows.OnText` |
| Handlers.HandleCallback | bot.py:211-233 | a fee button's waiter is one `find_opponent` may answer, and the tables and outcome are `Flows.OnCallback` |
| Handlers.HandlePhoto | bot.py:194-209 | the tables and outcome are `Flows.OnPhoto`; see `FlowProps.PhotoStep` |
| Handlers.CheckMatchTimeout | bot.py:190-192 | the tables are `Flows.CheckMatchTimeout`: the scheduled match is cancelled whatever its status; see `TableProps.CancelMatchAnyStatus` |
| FlowProps.EnsureUserEffect | bot.py:19-26 | afterwards the user has a row; an existing row is untouched; a new row is the default with the truthy referrer; the answer is the row unless banned |
| FlowProps.PlayBalanceCheck | bot.py:167 | a paid fee is refused exactly when the balance is below it, a balance equal to the fee is allowed, and a refusal changes nothing |
| FlowProps.PlayPairs | bot.py:169-180 | with a waiter at the fee, that waiter's entry alone is removed, exactly one match is created with the caller as player 1, the caller's own entry stays, the caller awaits the room code, and no money moves |
| FlowProps.PlayQueues | bot.py:183-187 | with no waiter at the fee, the caller's entry is put in the queue and nothing else changes |
| FlowProps.PlayMovesNoMoney | bot.py:163-188 | whatever happens, no balance moves and no ledger entry is added |
| FlowProps.PlayKeepsOtherFees | bot.py:163-188 | a waiter at another fee is never touched |
| FlowProps.TextFromKnownUser | bot.py:59-72 | a known user's text goes to the three buttons and then to the session branch, on the stripped text |
| FlowProps.BannedTextIgnored | bot.py:60-61 | a banned user's text changes nothing |
| FlowProps.CancelTextResets | bot.py:67-70 | "❌ Cancel" clears the session and the queue entry, whatever the session |
| FlowProps.NameStep | bot.py:73-76 | the name is stored and the phone number awaited |
| FlowProps.MenuTextBecomesName | bot.py:73-76 | while awaiting the name, any of the four menu button texts is stored as the name, because the buttons are matched only after the session |
| FlowProps.PhoneStep | bot.py:78-84 | the phone is stored, the user registered and idle, and the 10 bonus with its ledger entry is paid only if not given before |
| FlowProps.WelcomeBonusOnce | bot.py:80-82 | going through the phone step twice pays the bonus at most once |
| FlowProps.RoomCodeStep | bot.py:86-93 | a known match gets the code and goes in progress, and the user becomes idle; for an unknown match nothing changes and the handler raises |
| FlowProps.AmountStep | bot.py:95-101 | a number `float` reads is kept in the session awaiting the method; anything else is rejected with no change |
| FlowProps.AccountStep | bot.py:103-111 | the amount is debited by one ledger entry without a balance check, one request is filed with the text as account, and the user becomes idle |
| FlowProps.DepositStep | bot.py:113-133 | outside the dialogues a deposit message files one request and moves no money; any other text changes nothing, and only an idle user gets the AI reply |
| FlowProps.FeeButtonPlays | bot.py:214 | a menu fee button runs the pairing decision at that fee |
| FlowProps.CancelButtonAnyPresser | bot.py:225-227 | `cancel_{u}` removes u's entry whoever presses it |
| FlowProps.AdminButtonNeedsAdmin | bot.py:228-229 | an admin button pressed by anyone else changes nothing |
| FlowProps.AdminButtonResolves | bot.py:228-233 | an admin's button settles the named match for the named winner |
| FlowProps.WithdrawButton | bot.py:216-218 | the withdraw button sets the session to await the amount |
| FlowProps.MethodButton | bot.py:219-224 | a method button moves a pending amount to awaiting the account; for any other session the handler raises and nothing changes |
| FlowProps.WithdrawalDialogue | bot.py:95-111 | withdraw, amount, method, account: the balance drops by the amount, the user ends idle, and one request with that amount, method and account is filed |
| FlowProps.NegativeWithdrawalCredits | bot.py:97-105 | when the amount read is negative, the dialogue raises the balance |
| FlowProps.NegativeAmountParses | bot.py:97 | `-n` is its own strip and is read as the number −n |
| FlowProps.NegativeAmountNoButton | bot.py:65-67 | `-n` is none of the three fixed buttons |
| FlowProps.StartBadReferral | bot.py:44 | a `ref_` argument that `int` rejects stops `/start` before anything is stored |
| FlowProps.StartNewcomer | bot.py:42-57 | a newcomer with a non-zero referrer gets a default row carrying it and, once in the channel, is asked for the name |
| FlowProps.StartExistingUser | bot.py:42-57 | for a known user `/start` only ever sets the name session, exactly when the argument parses, the user is not banned, is in the channel and is unregistered |
| FlowProps.PhotoStep | bot.py:194-209 | a photo from a user awaiting a screenshot fills that user's slot, clears the session, and asks for review iff both slots are filled; an unknown match only clears the session |
| Invariants.EmptyDbInvariants | db.py:20-56 | both invariants hold of the empty tables |
| Invariants.ApplyFieldsBalance | db.py:105-110 | column updates never change the balance |
| Invariants.ApplyFieldsSession | db.py:105-113 | column updates that do not set the screenshot session do not produce it |
| Invariants.UpdateStep | db.py:105-110 | field updates keep the books, and keep the screenshot invariant unless they set that session |
| Invariants.StateStep | db.py:113 | setting any other session keeps both invariants |
| Invariants.AdjustStep | db.py:115-119 | an adjustment for a user with a row keeps both invariants |
| Invariants.CreateStep | db.py:98-102 | creating a user keeps both invariants |
| Invariants.RatingStep | db.py:188-189 | the rating updates keep both invariants |
| Invariants.ResolveStep | db.py:177-194 | settlement keeps both invariants, since it pays only a winner with a row |
| Invariants.EnsureStep | bot.py:19-26 | `ensure_user` leaves a row for the user and keeps both invariants |
| Invariants.StartKeepsInvariants | bot.py:42-57 | `/start` keeps both invariants |
| Invariants.PlayKeepsInvariants | bot.py:163-188 | the pairing decision keeps both invariants |
| Invariants.PhoneKeepsInvariants | bot.py:78-84 | the phone step keeps both invariants |
| Invariants.AccountKeepsInvariants | bot.py:103-111 | the account step keeps both invariants |
| Invariants.ReplyKeepsInvariants | bot.py:66-133 | the cancel button, the session branch and the menu buttons of a text all keep both invariants |
| Invariants.SessionReplyKeepsInvariants | bot.py:72-133 | every session branch keeps both invariants |
| Invariants.OnTextKeepsInvariants | bot.py:59-133 | every text keeps both invariants |
| Invariants.OnCallbackKeepsInvariants | bot.py:211-233 | every button keeps both invariants |
| Invariants.OnPhotoKeepsInvariants | bot.py:194-209 | every photo keeps both invariants |
| Invariants.TimeoutKeepsInvariants | bot.py:190-192 | the timeout keeps both invariants |
| Invariants.PhotoPathDead | bot.py:196 | while no user awaits a screenshot, a photo is ignored or raises, and stores nothing beyond its sender's row |
| Scenarios.FeeTiersSeparate | db.py:123-127 | a waiter at one fee is what another user's search at that fee finds, and a search at another fee finds nothing |
| Scenarios.MatchFromQueueToSettlement | bot.py:163-188 | 100 and 100 at fee 50: one match, the winner ends with 190, the loser keeps 100, ratings 1016 and 984, the match is completed, and a second settlement is refused |
| Scenarios.CallerInTwoOpenMatches | bot.py:169-174 | a user waiting at one fee and paired at another keeps the first entry and is paired again, ending up in two matches awaiting a room code |

## Left out

- Telegram I/O: messages, keyboards, lobby posts and their deletion, admin notifications and photos sent. `check_channel_member` becomes the `joined` parameter of `StartCommand`.
- The AI reply (`ai_manager.py`, an HTTP call) is only an outcome, `AiReply`. So are `ask_ai` and the menu views (`play_menu`, `wallet_menu`, `show_profile`, `show_leaderboard`), which only display things. Their fee list and settings key are the constants in `Callbacks`.
- `stats_cmd`, `broadcast_cmd`, `rules_command`, `set_rules` and `main` are admin and start-up plumbing. The store reads and writes they use are modelled.
- Concurrency is not modelled: `run_in_executor`, the global `asyncio.Lock` and interleaving between handlers. Each handler runs as one atomic sequence.
- Scheduling: `job_queue.run_once` is not modelled. The timeout is an explicit call of `Handlers.CheckMatchTimeout`, which cancels the match through `Store.Database.CancelMatch`.
- SQLite specifics are not modelled: connections, schema migration, commit and crash atomicity, `created_at` and `joined_at` timestamps.
- Floating point: money is exact `real`, and the payout `fee*2*0.9` is exactly nine fifths of the fee.
- `calculate_elo` is a parameter `RatingRule`. The source computes it with a fractional power of ten. Only its equal-ratings case (±16) is assumed, as the requirement `ExactAtEquality`.
- Randomness: the match id `uuid4()[:8]` is a parameter. An id already in use makes the insert fail, which is the model of the source's IntegrityError.
- Handlers.HandlePlay: which waiter `LIMIT 1` returns is left open. It can be any waiter at the fee other than the caller.
- `float()` is modelled only on plain decimals with an optional sign: no exponents, `inf`, `nan`, underscores or non-ASCII digits. These give `None` where Python would accept them.
- The classes `\d`, `\w`, `str.isdigit` and the digits `int()` reads are modelled as ASCII, where Python's are Unicode-aware. `str.isspace` and `\s` are not: `PyStr.IsSpace` is Python's full Unicode whitespace set.
- PyStr.ParseInt: gives `None` for non-ASCII decimal digits (such as Arabic-Indic or full-width digits) and for digits grouped by `_` (`"1_0"`), both of which Python's `int()` reads. Through it, Callbacks.ParseStartArgs answers `BadReferrer` for `ref_` followed by non-ASCII digits, where `start_command` would store the referrer. The `_` case reaches no modelled caller, since each parses a piece of a split on `_`.
- `validate_amount`, `format_balance`, `get_time_until_reset`, `is_within_hours`, the decorators and `ensure_directory` are not modelled: they involve floating point, the wall clock or logging.
- RateLimit.RateLimiter: `time.time()` becomes the parameter `now`.
- `state_data` JSON is not modelled. The session is a typed `Session`. A `json.loads` of a session without a pending amount is the crash outcome `CallbackCrashed`.
- Sends to Telegram are taken to succeed. In the source a send that raises stops the handler and skips the store calls after it; the model does not capture that. The skipped calls are these:
  - Handlers.HandlePlay: when pairing, the message to the caller precedes `set_user_state(uid, 'awaiting_room_code')`, so the match would exist with the caller never set to await the room code. When queueing, the lobby post precedes `add_to_queue`, so nothing would be queued.
  - Handlers.SessionReply, room-code step: the two messages precede the timeout's `run_once` and `set_user_state(None)`, so no timeout would be scheduled and the sender would keep the room-code session.
  - Handlers.SessionReply, account step: the confirmation precedes `set_user_state(None)`, so the sender would keep the account session after the debit and the request.
  - Handlers.StartCommand: the welcome message precedes `set_user_state('awaiting_ign')`, so an unregistered user would not be asked for a name.
  - Handlers.HandleCallback: `cb_handler` answers the button press (bot.py:212) before any branch runs, so a failed answer would make every button do nothing. The model still makes the branch's store calls: `set_user_state` for the withdraw and method buttons, `remove_from_queue` for a cancel button, and `resolve_match` with its ratings and payout for an admin button.
  - Handlers.HandlePhoto: the confirmation (bot.py:199) precedes `set_user_state(None)` (bot.py:200), so the sender would keep the screenshot session after the screenshot is stored. `Invariants.PhotoPathDead` shows this branch cannot be reached from the modelled states.
- Store and parse failures become outcomes (`PlayCrashed`, `CallbackCrashed`, `RoomCodeLost`, `ShotLost`, `PhotoCrashed`): the store keeps the calls already made and the handler stops. The framework's error logging is not modelled.
- `ensure_user` for an update without an effective user is not modelled: every modelled event has a sender.
- The withdrawal and deposit request status is always `pending` in this code, so it is not a field.
- `get_user` returning a dict that a handler then reads as a plain column is modelled field by field. Database NULLs are `None` options.
