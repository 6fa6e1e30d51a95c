/**
  * The pure parsers of bot.py: the `_`-separated callback data of the inline
  * buttons, the `/start ref_<id>` argument, the deposit message pattern, and
  * the constants of config.py they are checked against.
  */
module Callbacks {
  import opened Wrappers
  import opened PyStr
  import opened Tables

  /** `config.ADMINS`. */
  const Admins: seq<int> := [5172723202]

  /** The paid entry fees offered by `play_menu`. */
  const PaidFees: seq<nat> := [20, 50, 100]

  /** The settings key and value that add the free match button. */
  const FreePlayKey := "free_play_status"
  const FreePlayOn := "on"

  // ---------------------------------------------------------------- callback data

  /** What `cb_handler` (with `handle_play_callback`) makes of a button's data. */
  datatype Callback =
    | PlayFee(fee: real)
    | DepositInfo
    | WithdrawStart
    | WithdrawMethod(channel: string)
    | CancelWait(uid: int)
    | AdminResolve(matchId: string, winner: int)
    | Malformed
    | Unhandled

  function Last<T>(s: seq<T>): T
    requires s != []
  {
    s[|s| - 1]
  }

  /**
    * The dispatch of `cb_handler`, in its order of tests: a fee is the `float`
    * of the last `_` piece, a method the third piece, a cancelled user the
    * `int` of the second, an admin decision the third and fourth. Where the
    * source would raise (`ValueError`, `IndexError`) the result is `Malformed`.
    */
  function ParseCallback(d: string): (c: Callback)
    ensures c.PlayFee? ==> StartsWith(d, "play_fee_")
    ensures c.CancelWait? ==> StartsWith(d, "cancel_")
    ensures c.AdminResolve? ==> StartsWith(d, "admin_res_")
    ensures c.WithdrawMethod? ==> StartsWith(d, "w_method_")
    ensures c == Unhandled <==>
      !StartsWith(d, "play_fee_") && d != "deposit" && d != "withdraw" && !StartsWith(d, "w_method_")
      && !StartsWith(d, "cancel_") && !StartsWith(d, "admin_res_")
  {
    if StartsWith(d, "play_fee_") then ParseFee(d)
    else if d == "deposit" then DepositInfo
    else if d == "withdraw" then WithdrawStart
    else if StartsWith(d, "w_method_") then ParseMethod(d)
    else if StartsWith(d, "cancel_") then ParseCancel(d)
    else if StartsWith(d, "admin_res_") then ParseAdmin(d)
    else Unhandled
  }

  /** `float(d.split('_')[-1])`. */
  function ParseFee(d: string): (c: Callback)
    ensures c.PlayFee? || c == Malformed
  {
    match ParseFloat(Last(Split(d, '_')))
    case Some(fee) => PlayFee(fee)
    case None => Malformed
  }

  /** `d.split('_')[2]`. */
  function ParseMethod(d: string): (c: Callback)
    ensures c.WithdrawMethod? || c == Malformed
  {
    var parts := Split(d, '_');
    if |parts| >= 3 then WithdrawMethod(parts[2]) else Malformed
  }

  /** `int(d.split('_')[1])`. */
  function ParseCancel(d: string): (c: Callback)
    ensures c.CancelWait? || c == Malformed
  {
    var parts := Split(d, '_');
    if |parts| >= 2 then
      match ParseInt(parts[1])
      case Some(uid) => CancelWait(uid)
      case None => Malformed
    else Malformed
  }

  /** `parts[2]` and `int(parts[3])` of `d.split('_')`. */
  function ParseAdmin(d: string): (c: Callback)
    ensures c.AdminResolve? || c == Malformed
  {
    var parts := Split(d, '_');
    if |parts| >= 4 then
      match ParseInt(parts[3])
      case Some(w) => AdminResolve(parts[2], w)
      case None => Malformed
    else Malformed
  }

  /** Text whose first character differs from the prefix's does not start with it. */
  lemma NotPrefix(d: string, p: string)
    requires d != [] && p != [] && d[0] != p[0]
    ensures !StartsWith(d, p)
  {
    if |p| <= |d| {
      assert d[..|p|][0] != p[0];
    }
  }

  /** The data of a fee button, `play_fee_{f}`. */
  function PlayFeeData(fee: nat): string {
    "play_fee_" + NatToDigits(fee)
  }

  /** The data of the queue's cancel button, `cancel_{uid}`. */
  function CancelData(uid: int): string {
    "cancel_" + IntToString(uid)
  }

  /** The data of an admin's decision button, `admin_res_{mid}_{uid}`. */
  function AdminResolveData(mid: string, winner: int): string {
    "admin_res_" + mid + "_" + IntToString(winner)
  }

  /** The data of a withdrawal method button, `w_method_{name}`. */
  function WithdrawMethodData(name: string): string {
    "w_method_" + name
  }

  /** Splitting `a_rest` at `_` gives `a`, then the pieces of `rest`. */
  lemma SplitFirst(a: string, rest: string)
    requires '_' !in a
    ensures Split(a + "_" + rest, '_') == [a] + Split(rest, '_')
  {
    SplitAfterPiece(a, '_', rest);
    assert Split(a, '_') == [a];
  }

  /** A fee button parses back to its fee. */
  lemma PlayFeeRoundTrip(fee: nat)
    ensures ParseCallback(PlayFeeData(fee)) == PlayFee(fee as real)
  {
    var digits := NatToDigits(fee);
    var d := PlayFeeData(fee);
    assert '_' !in digits by {
      forall i | 0 <= i < |digits| ensures digits[i] != '_' { assert IsDigit(digits[i]); }
    }
    assert d == "play" + "_" + ("fee" + "_" + digits);
    SplitFirst("play", "fee" + "_" + digits);
    SplitFirst("fee", digits);
    assert Split(d, '_') == ["play", "fee", digits];
    assert d[..9] == "play_fee_";
    DecimalOfNat(fee);
    assert ParseFee(d) == PlayFee(fee as real);
  }

  /** Every fee button `play_menu` shows, the free one included, parses back to its fee. */
  lemma MenuFeesParse(fee: nat)
    requires fee in PaidFees || fee == 0
    ensures ParseCallback(PlayFeeData(fee)) == PlayFee(fee as real)
  {
    PlayFeeRoundTrip(fee);
  }

  /** Data starting `cancel_` goes to the cancel branch. */
  lemma DispatchCancel(d: string)
    requires StartsWith(d, "cancel_")
    ensures ParseCallback(d) == ParseCancel(d)
  {
    assert d[0] == 'c';
    NotPrefix(d, "play_fee_");
    NotPrefix(d, "w_method_");
  }

  /** Data starting `admin_res_` goes to the admin branch. */
  lemma DispatchAdmin(d: string)
    requires StartsWith(d, "admin_res_")
    ensures ParseCallback(d) == ParseAdmin(d)
  {
    assert d[0] == 'a';
    NotPrefix(d, "play_fee_");
    NotPrefix(d, "w_method_");
    NotPrefix(d, "cancel_");
  }

  /** Data starting `w_method_` goes to the method branch. */
  lemma DispatchMethod(d: string)
    requires StartsWith(d, "w_method_")
    ensures ParseCallback(d) == ParseMethod(d)
  {
    assert d[0] == 'w';
    NotPrefix(d, "play_fee_");
    assert d != "withdraw" by { assert |d| >= 9; }
  }

  /** Data whose second `_` piece is a number cancels that user's wait. */
  lemma ParseCancelOf(d: string, p: string, uid: int)
    requires |Split(d, '_')| >= 2 && Split(d, '_')[1] == p && ParseInt(p) == Some(uid)
    ensures ParseCancel(d) == CancelWait(uid)
  {
  }

  /** A cancel button parses back to the user it was made for. */
  lemma CancelRoundTrip(uid: int)
    ensures ParseCallback(CancelData(uid)) == CancelWait(uid)
  {
    var text := IntToString(uid);
    var d := "cancel" + "_" + text;
    assert d == CancelData(uid);
    assert Split(d, '_') == ["cancel", text] by {
      SplitFirst("cancel", text);
      assert Split(text, '_') == [text];
    }
    IntRoundTrip(uid);
    ParseCancelOf(d, text, uid);
    assert StartsWith(d, "cancel_") by { assert d[..7] == "cancel_"; }
    DispatchCancel(d);
  }

  /** Three pieces without `_` joined by `_` split back into themselves. */
  lemma SplitThree(a: string, b: string, c: string)
    requires '_' !in a && '_' !in b && '_' !in c
    ensures Split(a + "_" + b + "_" + c, '_') == [a, b, c]
  {
    var bc := b + "_" + c;
    assert a + "_" + b + "_" + c == a + "_" + bc;
    SplitTwo(b, c);
    SplitFirst(a, bc);
  }

  /** Two pieces without `_` joined by `_` split back into themselves. */
  lemma SplitTwo(b: string, c: string)
    requires '_' !in b && '_' !in c
    ensures Split(b + "_" + c, '_') == [b, c]
  {
    SplitFirst(b, c);
    assert Split(c, '_') == [c];
  }

  /** The pieces of an admin button's data: the match id's own pieces sit between `res` and the winner. */
  lemma AdminDataPieces(mid: string, wt: string)
    requires '_' !in wt
    ensures var parts := Split("admin_res_" + mid + "_" + wt, '_');
      var pieces := Split(mid, '_');
      |parts| == |pieces| + 3 && parts[2..|parts| - 1] == pieces && parts[|parts| - 1] == wt
  {
    var head, q := "admin_res", "admin_res_" + mid;
    assert q == head + "_" + mid;
    assert head == "admin" + "_" + "res";
    SplitTwo("admin", "res");
    SplitConcat(head, '_', mid);
    SplitConcat(q, '_', wt);
    assert Split(wt, '_') == [wt];
    Framed(["admin", "res"], Split(mid, '_'), wt);
  }

  /** Two pieces, then `pieces`, then `last`: the slice between holds `pieces`. */
  lemma Framed(front: seq<string>, pieces: seq<string>, last: string)
    requires |front| == 2
    ensures var p := front + pieces + [last];
      |p| == |pieces| + 3 && p[2..|p| - 1] == pieces && p[|p| - 1] == last
  {
    var p := front + pieces + [last];
    assert p[2..|p| - 1] == pieces by {
      forall k | 0 <= k < |pieces| ensures p[2 + k] == pieces[k] { }
    }
  }

  /**
    * An admin button parses back to its match and winner exactly when the
    * match id has no `_`; an id holding `_` would be cut at it.
    */
  lemma AdminResolveRoundTrip(mid: string, winner: int)
    ensures ParseCallback(AdminResolveData(mid, winner)) == AdminResolve(mid, winner) <==> '_' !in mid
  {
    var d := AdminResolveData(mid, winner);
    assert d[..10] == "admin_res_";
    DispatchAdmin(d);
    if '_' !in mid {
      AdminParseClean(mid, winner);
    } else {
      AdminParseCut(mid, winner);
    }
  }

  /** An admin button whose match id has no `_` splits back into that id and winner. */
  lemma AdminParseClean(mid: string, winner: int)
    requires '_' !in mid
    ensures ParseAdmin(AdminResolveData(mid, winner)) == AdminResolve(mid, winner)
  {
    var wt := IntToString(winner);
    var d := AdminResolveData(mid, winner);
    var parts := Split(d, '_');
    assert |parts| == 4 && parts[2] == mid && parts[3] == wt by {
      AdminDataPieces(mid, wt);
      assert Split(mid, '_') == [mid];
      assert parts[2..|parts| - 1][0] == parts[2];
    }
    IntRoundTrip(winner);
    ParseAdminOf(d, mid, wt, winner);
  }

  /** Data whose third `_` piece is `m` and fourth a number `w` names match `m` and winner `w`. */
  lemma ParseAdminOf(d: string, m: string, p: string, w: int)
    requires |Split(d, '_')| >= 4 && Split(d, '_')[2] == m && Split(d, '_')[3] == p && ParseInt(p) == Some(w)
    ensures ParseAdmin(d) == AdminResolve(m, w)
  {
  }

  /** An admin button whose match id holds `_` never reads back as that id. */
  lemma AdminParseCut(mid: string, winner: int)
    requires '_' in mid
    ensures ParseAdmin(AdminResolveData(mid, winner)) != AdminResolve(mid, winner)
  {
    var wt := IntToString(winner);
    AdminDataPieces(mid, wt);
    var pieces := Split(mid, '_');
    var parts := Split(AdminResolveData(mid, winner), '_');
    assert parts[2] == pieces[0] by { assert parts[2..|parts| - 1][0] == parts[2]; }
    SplitPiecesClean(mid, '_');
    assert '_' !in pieces[0];
    assert pieces[0] != mid;
  }

  /** Every id `create_match_sync` draws is free of `_`, so its admin buttons parse back exactly. */
  lemma MatchButtonsRoundTrip(mid: string, winner: int)
    requires IsMatchToken(mid)
    ensures ParseCallback(AdminResolveData(mid, winner)) == AdminResolve(mid, winner)
  {
    assert '_' !in mid by {
      forall i | 0 <= i < |mid| ensures mid[i] != '_' { assert IsHexDigit(mid[i]); }
    }
    AdminResolveRoundTrip(mid, winner);
  }

  /** The pieces of an admin button's data whose match id is `x_y`. */
  lemma SplitIdPieces(x: string, y: string, wt: string)
    requires '_' !in x && '_' !in y && '_' !in wt
    ensures var parts := Split("admin_res_" + (x + "_" + y) + "_" + wt, '_');
      |parts| >= 4 && parts[2] == x && parts[3] == y
  {
    var mid := x + "_" + y;
    SplitTwo(x, y);
    AdminDataPieces(mid, wt);
    PiecesAt(Split("admin_res_" + mid + "_" + wt, '_'), x, y);
  }

  /** Two middle pieces `x`, `y` after the first two are the third and fourth. */
  lemma PiecesAt(parts: seq<string>, x: string, y: string)
    requires |parts| >= 3 && parts[2..|parts| - 1] == [x, y]
    ensures |parts| >= 4 && parts[2] == x && parts[3] == y
  {
    assert parts[2..|parts| - 1][0] == parts[2];
    assert parts[2..|parts| - 1][1] == parts[3];
  }

  /** An id `x_k` would even be read as another match `x`, won by user `k`. */
  lemma UnderscoreIdMisread(x: string, k: int, winner: int)
    requires '_' !in x
    ensures ParseCallback(AdminResolveData(x + "_" + IntToString(k), winner)) == AdminResolve(x, k)
  {
    var d := AdminResolveData(x + "_" + IntToString(k), winner);
    SplitIdPieces(x, IntToString(k), IntToString(winner));
    IntRoundTrip(k);
    assert ParseAdmin(d) == AdminResolve(x, k);
    assert d[..10] == "admin_res_";
    DispatchAdmin(d);
  }

  /** A withdrawal method button yields its method name, which has no `_`. */
  lemma WithdrawMethodRoundTrip(name: string)
    requires '_' !in name
    ensures ParseCallback(WithdrawMethodData(name)) == WithdrawMethod(name)
  {
    var d := WithdrawMethodData(name);
    MethodParse(name);
    assert d[..9] == "w_method_";
    DispatchMethod(d);
  }

  /** The pieces of `w_method_{name}` put the name third. */
  lemma MethodParse(name: string)
    requires '_' !in name
    ensures ParseMethod(WithdrawMethodData(name)) == WithdrawMethod(name)
  {
    var w, m := "w", "method";
    assert w + "_" + m + "_" + name == WithdrawMethodData(name) by {
      assert w + "_" + m + "_" == "w_method_";
    }
    SplitThree(w, m, name);
  }

  // ---------------------------------------------------------------- /start argument

  /** The referrer `start_command` reads from its arguments. */
  datatype StartArg = NoReferrer | Referrer(id: int) | BadReferrer

  /**
    * `int(args[0].split('_')[1])` when the first argument starts with `ref_`;
    * `BadReferrer` where `int` raises and the command stops.
    */
  function ParseStartArgs(args: seq<string>): (r: StartArg)
    ensures r != NoReferrer <==> args != [] && StartsWith(args[0], "ref_")
  {
    if args != [] && StartsWith(args[0], "ref_") then
      var parts := Split(args[0], '_');
      if |parts| >= 2 then
        match ParseInt(parts[1])
        case Some(id) => Referrer(id)
        case None => BadReferrer
      else BadReferrer
    else NoReferrer
  }

  /** The argument of a referral link, `ref_{id}`. */
  function ReferralArg(id: int): string {
    "ref_" + IntToString(id)
  }

  /** An argument `ref_<p>` whose second piece is a number names that referrer. */
  lemma StartArgsReferrer(a: string, p: string, id: int)
    requires StartsWith(a, "ref_") && Split(a, '_') == ["ref", p] && ParseInt(p) == Some(id)
    ensures ParseStartArgs([a]) == Referrer(id)
  {
  }

  /** A referral link's argument parses back to the referrer. */
  lemma ReferralRoundTrip(id: int)
    ensures ParseStartArgs([ReferralArg(id)]) == Referrer(id)
  {
    var text := IntToString(id);
    var a := "ref" + "_" + text;
    assert a == ReferralArg(id);
    assert Split(a, '_') == ["ref", text] by {
      SplitFirst("ref", text);
      assert Split(text, '_') == [text];
    }
    assert StartsWith(a, "ref_") by { assert a[..4] == "ref_"; }
    IntRoundTrip(id);
    StartArgsReferrer(a, text, id);
  }

  // ---------------------------------------------------------------- deposit message

  predicate AllAlnum(s: string) { forall i :: 0 <= i < |s| ==> IsAsciiAlnum(s[i]) }

  predicate AllSpace(s: string) { forall i :: 0 <= i < |s| ==> IsSpace(s[i]) }

  /** The pattern `\d+(?:\.\d{1,2})?`: digits, then optionally a dot and one or two digits. */
  predicate AmountForm(s: string) {
    (s != [] && AllDigits(s))
    || ('.' in s
        && var k := IndexOf(s, '.');
           k > 0 && AllDigits(s[..k]) && 1 <= |s| - (k + 1) <= 2 && AllDigits(s[k + 1..]))
  }

  /**
    * The pattern `^([A-Za-z0-9]+)\s+(amount)$` matched with the first group
    * ending at `i` and the amount starting at `j`.
    */
  ghost predicate DepositShape(txt: string, i: nat, j: nat) {
    0 < i < j <= |txt| && AllAlnum(txt[..i]) && AllSpace(txt[i..j]) && AmountForm(txt[j..])
  }

  /** The length of the run of `[A-Za-z0-9]` that starts `s`. */
  function AlnumRun(s: string): (n: nat)
    ensures n <= |s| && AllAlnum(s[..n])
    ensures n < |s| ==> !IsAsciiAlnum(s[n])
  {
    if s == [] || !IsAsciiAlnum(s[0]) then 0
    else
      var m := AlnumRun(s[1..]);
      assert s[..m + 1] == [s[0]] + s[1..][..m];
      m + 1
  }

  /** The run is determined by where it stops. */
  lemma {:induction false} AlnumRunAt(s: string, n: nat)
    requires n <= |s| && AllAlnum(s[..n])
    requires n < |s| ==> !IsAsciiAlnum(s[n])
    ensures AlnumRun(s) == n
  {
    if n > 0 {
      assert IsAsciiAlnum(s[..n][0]);
      assert s[1..][..n - 1] == s[..n][1..];
      AlnumRunAt(s[1..], n - 1);
    }
  }

  /** Where the `\s+` after position `i` ends: the end of the whitespace run `lstrip` removes. */
  function SeparatorEnd(txt: string, i: nat): (j: nat)
    requires i <= |txt|
    ensures i <= j <= |txt| && AllSpace(txt[i..j])
    ensures j < |txt| ==> !IsSpace(txt[j])
  {
    var rest := txt[i..];
    var j := i + (|rest| - |LStrip(rest)|);
    assert forall k :: 0 <= k < j - i ==> txt[i..j][k] == rest[k];
    assert j < |txt| ==> txt[j] == LStrip(rest)[0];
    j
  }

  /** The run is determined by where it stops. */
  lemma SeparatorEndAt(txt: string, i: nat, j: nat)
    requires i <= j <= |txt| && AllSpace(txt[i..j])
    requires j < |txt| ==> !IsSpace(txt[j])
    ensures SeparatorEnd(txt, i) == j
  {
    var rest := txt[i..];
    assert forall k :: 0 <= k < j - i ==> rest[k] == txt[i..j][k];
    assert j < |txt| ==> rest[j - i] == txt[j];
    LStripAt(rest, j - i);
  }

  /**
    * Where the deposit pattern matches, if it does: the letters-and-digits
    * group is the whole leading run, the separator the whole whitespace run
    * after it, and the rest must be an amount.
    */
  function DepositMatch(txt: string): (r: Option<(nat, nat)>)
    ensures r.Some? ==> DepositShape(txt, r.value.0, r.value.1)
  {
    var i := AlnumRun(txt);
    var j := SeparatorEnd(txt, i);
    if 0 < i < j && AmountForm(txt[j..]) then Some((i, j)) else None
  }

  /** An amount starts with a digit, so not with whitespace. */
  lemma AmountStartsSolid(s: string)
    requires AmountForm(s)
    ensures s != [] && !IsSpace(s[0])
  {
    if !(s != [] && AllDigits(s)) {
      var k := IndexOf(s, '.');
      assert s[..k][0] == s[0];
    }
  }

  /**
    * With letters and digits up to `i` and whitespace from `i` up to a solid
    * character at `j`, the pattern matches there exactly when the rest is an
    * amount.
    */
  lemma DepositMatchAt(txt: string, i: nat, j: nat)
    requires 0 < i < j < |txt| && AllAlnum(txt[..i]) && AllSpace(txt[i..j]) && !IsSpace(txt[j])
    ensures DepositMatch(txt) == if AmountForm(txt[j..]) then Some((i, j)) else None
  {
    assert txt[i] == txt[i..j][0];
    AlnumRunAt(txt, i);
    SeparatorEndAt(txt, i, j);
  }

  /** A match is unique: any way the pattern fits is the one `DepositMatch` finds. */
  lemma DepositMatchComplete(txt: string, i: nat, j: nat)
    requires DepositShape(txt, i, j)
    ensures DepositMatch(txt) == Some((i, j))
  {
    AmountStartsSolid(txt[j..]);
    assert txt[j..][0] == txt[j];
    DepositMatchAt(txt, i, j);
  }

  /** An amount in the pattern is a plain decimal that `float` reads. */
  lemma AmountParses(s: string)
    requires AmountForm(s)
    ensures ParseDecimal(s).Some?
  {
  }

  /**
    * The deposit `main_text_handler` records for a message: the transaction
    * id and the `float` of the amount, when the message fits the pattern.
    */
  function ParseDeposit(txt: string): (r: Option<(string, real)>)
    ensures r.Some? <==> DepositMatch(txt).Some?
    ensures r.Some? ==> r.value.1 >= 0.0 && r.value.0 != [] && AllAlnum(r.value.0)
  {
    match DepositMatch(txt)
    case Some((i, j)) =>
      AmountParses(txt[j..]);
      Some((txt[..i], ParseDecimal(txt[j..]).value))
    case None => None
  }

  /** Any text of the form `<id> <amount>` is read as that id and that amount. */
  lemma DepositRoundTrip(txid: string, sep: string, amount: string)
    requires txid != [] && AllAlnum(txid)
    requires sep != [] && AllSpace(sep)
    requires AmountForm(amount)
    ensures ParseDeposit(txid + sep + amount) == Some((txid, ParseDecimal(amount).value))
  {
    var txt := txid + sep + amount;
    var i, j := |txid|, |txid| + |sep|;
    assert txt[..i] == txid && txt[i..j] == sep && txt[j..] == amount;
    DepositMatchComplete(txt, i, j);
  }

  /** Digits, a dot and three digits are not of the amount's form. */
  lemma ThreeDecimalsNotAmount(whole: string, frac: string)
    requires whole != [] && AllDigits(whole) && |frac| == 3
    ensures !AmountForm(whole + "." + frac)
  {
    var amount := whole + "." + frac;
    assert '.' !in whole by { assert forall k :: 0 <= k < |whole| ==> IsDigit(whole[k]); }
    IndexOfAfterPrefix(whole, '.', frac);
    assert whole + ['.'] + frac == amount;
    assert !AllDigits(amount) by { assert amount[|whole|] == '.'; }
  }

  /** Where the separator is followed by something other than an amount, no deposit is read. */
  lemma NoDepositAt(txt: string, i: nat, j: nat)
    requires 0 < i < j < |txt| && AllAlnum(txt[..i]) && AllSpace(txt[i..j]) && !IsSpace(txt[j])
    requires !AmountForm(txt[j..])
    ensures ParseDeposit(txt) == None
  {
    DepositMatchAt(txt, i, j);
  }

  /** An amount with three decimals does not fit the pattern, so no deposit is recorded. */
  lemma ThreeDecimalsRejected(txid: string, sep: string, whole: string, frac: string)
    requires txid != [] && AllAlnum(txid) && sep != [] && AllSpace(sep)
    requires whole != [] && AllDigits(whole) && |frac| == 3 && AllDigits(frac)
    ensures ParseDeposit(txid + sep + whole + "." + frac) == None
  {
    var amount := whole + "." + frac;
    ThreeDecimalsNotAmount(whole, frac);
    var txt := txid + sep + whole + "." + frac;
    var i, j := |txid|, |txid| + |sep|;
    assert txt[..i] == txid;
    assert txt[i..j] == sep;
    assert txt[j..] == amount;
    assert txt[j] == whole[0];
    NoDepositAt(txt, i, j);
  }
}
