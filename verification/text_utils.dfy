/**
  * The input validators and text helpers of utils.py: phone numbers, in-game
  * names, truncation, whitespace clean-up and the Bengali date format.
  */
module TextUtils {
  import opened Wrappers
  import opened PyStr

  /** A validator's answer: `(True, value)` or `(False, message)`; the message is named by its reason. */
  datatype Verdict = Accepted(value: string) | Rejected(reason: Reason)

  datatype Reason = EmptyPhone | BadPhone | NameTooShort | NameTooLong | NameBadChars

  // ---------------------------------------------------------------- phone numbers

  /** `s.replace(c, '')`. */
  function Without(s: string, c: char): (r: string)
    ensures c !in r
    ensures |r| <= |s|
  {
    if s == [] then []
    else (if s[0] == c then [] else [s[0]]) + Without(s[1..], c)
  }

  /** `replace` drops every `c` and keeps every other character, as many times as it occurs. */
  lemma {:induction false} WithoutCounts(s: string, c: char)
    ensures multiset(Without(s, c)) == multiset(s)[c := 0]
  {
    if s != [] {
      WithoutCounts(s[1..], c);
      WithoutCountsStep(s[0], s[1..], Without(s[1..], c), c);
      assert s == [s[0]] + s[1..];
    }
  }

  /** One character in front: it is counted unless it is `c`. */
  lemma WithoutCountsStep(x: char, rest: string, r: string, c: char)
    requires multiset(r) == multiset(rest)[c := 0]
    ensures multiset((if x == c then [] else [x]) + r) == multiset([x] + rest)[c := 0]
  {
    assert multiset([x] + rest) == multiset{x} + multiset(rest);
  }

  /** `replace` of a character that does not occur changes nothing. */
  lemma {:induction false} WithoutAbsent(s: string, c: char)
    requires c !in s
    ensures Without(s, c) == s
  {
    if s != [] {
      assert c !in s[1..] by { assert forall k :: 0 <= k < |s| - 1 ==> s[1..][k] == s[k + 1]; }
      WithoutAbsent(s[1..], c);
    }
  }

  /** `replace` works character by character: it distributes over concatenation. */
  lemma {:induction false} WithoutConcat(a: string, b: string, c: char)
    ensures Without(a + b, c) == Without(a, c) + Without(b, c)
  {
    if a == [] {
      assert a + b == b;
    } else {
      var head := if a[0] == c then [] else [a[0]];
      CutInside(a, b, 1);
      assert Without(a + b, c) == head + Without(a[1..] + b, c);
      WithoutConcat(a[1..], b, c);
      assert Without(a, c) == head + Without(a[1..], c);
      Regroup(Without(a + b, c), Without(a, c), head, Without(a[1..], c), Without(b, c));
    }
  }

  /** `phone.replace('-', '').replace(' ', '')`: no dash, no space, and every other character as often as before. */
  function CleanPhone(phone: string): (r: string)
    ensures multiset(r) == multiset(phone)['-' := 0][' ' := 0]
  {
    WithoutCounts(phone, '-');
    WithoutCounts(Without(phone, '-'), ' ');
    Without(Without(phone, '-'), ' ')
  }

  /** Cleaning distributes over concatenation. */
  lemma CleanPhoneConcat(a: string, b: string)
    ensures CleanPhone(a + b) == CleanPhone(a) + CleanPhone(b)
  {
    WithoutConcat(a, b, '-');
    WithoutConcat(Without(a, '-'), Without(b, '-'), ' ');
  }

  /**
    * The cleaned number keeps the typed order: around any one character it is
    * the cleaned text before, that character unless it is a separator, and the
    * cleaned text after.
    */
  lemma CleanPhoneKeepsOrder(a: string, x: char, b: string)
    ensures CleanPhone(a + [x] + b) == CleanPhone(a) + (if x == '-' || x == ' ' then [] else [x]) + CleanPhone(b)
  {
    CleanPhoneConcat(a + [x], b);
    CleanPhoneConcat(a, [x]);
    assert [x][1..] == [];
    assert Without([x], '-') == if x == '-' then [] else [x];
  }

  /** Digits alone are left as they are. */
  lemma CleanDigits(a: string)
    requires AllDigits(a)
    ensures CleanPhone(a) == a
  {
    assert '-' !in a && ' ' !in a by {
      assert forall k :: 0 <= k < |a| ==> a[k] != '-' && a[k] != ' ';
    }
    WithoutAbsent(a, '-');
    WithoutAbsent(a, ' ');
  }

  /**
    * `validate_phone_number`: empty input is refused outright; otherwise the
    * number without dashes and spaces must be 10 to 13 digits, and is returned.
    */
  function ValidatePhoneNumber(phone: string): (v: Verdict)
    ensures v == Rejected(EmptyPhone) <==> phone == []
    ensures v.Accepted? <==> phone != [] && AllDigits(CleanPhone(phone)) && 10 <= |CleanPhone(phone)| <= 13
    ensures v.Accepted? ==> v.value == CleanPhone(phone) && AllDigits(v.value) && 10 <= |v.value| <= 13
  {
    if phone == [] then Rejected(EmptyPhone)
    else
      var clean := CleanPhone(phone);
      // `"".isdigit()` is False, so a number made only of separators is refused too
      if clean != [] && AllDigits(clean) && 10 <= |clean| <= 13 then Accepted(clean)
      else Rejected(BadPhone)
  }

  /** A bare 10-to-13-digit number is accepted exactly as typed. */
  lemma PlainDigitsAccepted(phone: string)
    requires AllDigits(phone) && 10 <= |phone| <= 13
    ensures ValidatePhoneNumber(phone) == Accepted(phone)
  {
    assert '-' !in phone && ' ' !in phone by {
      assert forall k :: 0 <= k < |phone| ==> phone[k] != '-' && phone[k] != ' ';
    }
    WithoutAbsent(phone, '-');
    WithoutAbsent(phone, ' ');
  }

  /** Two runs of digits around one dash or space are accepted as the digits run together, in order. */
  lemma SeparatedDigitsAccepted(a: string, sep: char, b: string)
    requires AllDigits(a) && AllDigits(b) && 10 <= |a| + |b| <= 13
    requires sep == '-' || sep == ' '
    ensures ValidatePhoneNumber(a + [sep] + b) == Accepted(a + b)
  {
    var typed := a + [sep] + b;
    assert a + [] + b == a + b && typed != [];
    CleanPhoneKeepsOrder(a, sep, b);
    CleanDigits(a);
    CleanDigits(b);
    DigitsConcat(a, b);
    assert CleanPhone(typed) == a + b;
  }

  lemma DigitsConcat(a: string, b: string)
    requires AllDigits(a) && AllDigits(b)
    ensures AllDigits(a + b)
  {
    forall k | 0 <= k < |a + b| ensures IsDigit((a + b)[k]) {
      if k < |a| { assert (a + b)[k] == a[k]; } else { assert (a + b)[k] == b[k - |a|]; }
    }
  }

  // ---------------------------------------------------------------- names

  /** The class `[\w\s\-]`, with `\w` taken as `[A-Za-z0-9_]`. */
  predicate IsNameChar(c: char) {
    IsAsciiAlnum(c) || c == '_' || IsSpace(c) || c == '-'
  }

  /**
    * `validate_username`: 2 to 50 characters, all from `[\w\s\-]`; the stripped
    * name is returned. (Since `\n` is itself in the class, the `$` that also
    * matches before a final newline admits nothing more.)
    */
  function ValidateUsername(name: string): (v: Verdict)
    ensures v.Accepted? <==> 2 <= |name| <= 50 && forall i :: 0 <= i < |name| ==> IsNameChar(name[i])
    ensures v.Accepted? ==> v.value == Strip(name)
    ensures |name| < 2 ==> v == Rejected(NameTooShort)
    ensures |name| > 50 ==> v == Rejected(NameTooLong)
  {
    if name == [] || |name| < 2 then Rejected(NameTooShort)
    else if |name| > 50 then Rejected(NameTooLong)
    else if !(forall i :: 0 <= i < |name| ==> IsNameChar(name[i])) then Rejected(NameBadChars)
    else Accepted(Strip(name))
  }

  /** The length check runs before `strip()`, so a name of blanks is accepted as the empty name. */
  lemma BlankNameAccepted(name: string)
    requires 2 <= |name| <= 50 && forall i :: 0 <= i < |name| ==> IsSpace(name[i])
    ensures ValidateUsername(name) == Accepted("")
  {
    LStripAt(name, |name|);
    assert forall i :: 0 <= i < |name| ==> IsNameChar(name[i]);
  }

  // ---------------------------------------------------------------- truncation

  /** Python `s[:k]`: a negative `k` counts from the end, and both ends clamp to the text. */
  function PyPrefix(s: string, k: int): (r: string)
    ensures |r| <= |s| && r == s[..|r|]
    ensures |r| == if 0 <= k <= |s| then k else if k > |s| then |s| else if -k <= |s| then |s| + k else 0
  {
    if k >= 0 then (if k <= |s| then s[..k] else s)
    else if -k <= |s| then s[..|s| + k]
    else []
  }

  /** `truncate_text`: text longer than `maxLength` is cut to `text[:maxLength-3] + '...'`. */
  function TruncateText(text: string, maxLength: int): (r: string)
    ensures |text| <= maxLength ==> r == text
    ensures |text| > maxLength ==> |r| >= 3 && r[|r| - 3..] == "..."
  {
    if |text| > maxLength then PyPrefix(text, maxLength - 3) + "..." else text
  }

  /** With a limit of at least three, the result fits the limit and keeps the head of the text. */
  lemma TruncateFits(text: string, maxLength: int)
    requires maxLength >= 3
    ensures |TruncateText(text, maxLength)| <= maxLength
    ensures |text| > maxLength ==>
      |TruncateText(text, maxLength)| == maxLength
      && TruncateText(text, maxLength)[..maxLength - 3] == text[..maxLength - 3]
  {
  }

  /** Below three the limit is not kept: the negative slice keeps most of the text. */
  lemma TruncateSmallLimitOverflows()
    ensures TruncateText("abcdef", 2) == "abcde..."
  {
    assert PyPrefix("abcdef", -1) == "abcde";
  }

  // ---------------------------------------------------------------- whitespace clean-up

  /**
    * `clean_text`: `' '.join(text.split())`. The result is tidy and has the
    * same words as the text; `WordsAtSpace` pins those words down.
    */
  function CleanText(text: string): (r: string)
    ensures Tidy(r)
    ensures Words(r) == Words(text)
  {
    JoinWordsTidy(Words(text));
    WordsOfJoin(Words(text));
    Join(Words(text), " ")
  }

  /**
    * Whitespace only as single ASCII spaces between two non-whitespace
    * characters: no leading or trailing whitespace, no two blanks in a row.
    */
  predicate Tidy(s: string) {
    forall i :: 0 <= i < |s| && IsSpace(s[i]) ==>
      s[i] == ' ' && 0 < i < |s| - 1 && !IsSpace(s[i - 1]) && !IsSpace(s[i + 1])
  }

  predicate AllWords(ws: seq<string>) {
    forall i :: 0 <= i < |ws| ==> ws[i] != [] && NoSpace(ws[i])
  }

  lemma {:induction false} JoinWordsTidy(ws: seq<string>)
    requires AllWords(ws)
    ensures Tidy(Join(ws, " "))
    ensures ws != [] ==> Join(ws, " ") != [] && !IsSpace(Join(ws, " ")[0])
  {
    if |ws| > 1 {
      JoinWordsTidy(ws[1..]);
      var a, b := ws[0], Join(ws[1..], " ");
      var s := a + " " + b;
      assert s == Join(ws, " ");
      forall i | 0 <= i < |s| && IsSpace(s[i])
        ensures s[i] == ' ' && 0 < i < |s| - 1 && !IsSpace(s[i - 1]) && !IsSpace(s[i + 1])
      {
        if i > |a| {
          assert s[i] == b[i - |a| - 1];
          assert s[i - 1] == b[i - |a| - 2];
          assert s[i + 1] == b[i - |a|];
        }
      }
    }
  }

  lemma {:induction false} WordLengthOfWord(w: string, tail: string)
    requires NoSpace(w)
    requires tail == [] || IsSpace(tail[0])
    ensures WordLength(w + tail) == |w|
  {
    if w != [] {
      assert (w + tail)[1..] == w[1..] + tail;
      WordLengthOfWord(w[1..], tail);
    }
  }

  /** A word followed by whitespace or nothing is split off whole. */
  lemma WordsAfterWord(w: string, tail: string)
    requires w != [] && NoSpace(w)
    requires tail == [] || IsSpace(tail[0])
    ensures Words(w + tail) == [w] + Words(tail)
  {
    WordLengthOfWord(w, tail);
    var s := w + tail;
    assert s[0] == w[0];
    assert s[..|w|] == w;
    assert s[|w|..] == tail;
  }

  /** Splitting words joined by single blanks gives the words back. */
  lemma {:induction false} WordsOfJoin(ws: seq<string>)
    requires AllWords(ws)
    ensures Words(Join(ws, " ")) == ws
  {
    if |ws| == 1 {
      WordsAfterWord(ws[0], []);
      assert ws[0] + [] == ws[0];
    } else if |ws| > 1 {
      var a, b := ws[0], Join(ws[1..], " ");
      assert Join(ws, " ") == a + (" " + b);
      WordsAfterWord(a, " " + b);
      assert (" " + b)[1..] == b;
      WordsOfJoin(ws[1..]);
      assert ws == [a] + ws[1..];
    }
  }

  /** A word run that ends inside `x`, or where whitespace or nothing follows, keeps its length when more text is appended. */
  lemma {:induction false} WordLengthExtend(x: string, t: string)
    requires WordLength(x) < |x| || t == [] || IsSpace(t[0])
    ensures WordLength(x + t) == WordLength(x)
  {
    if x != [] {
      assert (x + t)[0] == x[0] && (x + t)[1..] == x[1..] + t;
      if !IsSpace(x[0]) {
        WordLengthExtend(x[1..], t);
      }
    }
  }

  /** A leading whitespace character starts no word. */
  lemma WordsSkipSpace(s: string)
    requires s != [] && IsSpace(s[0])
    ensures Words(s) == Words(s[1..])
  {
  }

  /** A leading non-whitespace character starts the first word, which runs as far as `WordLength` says. */
  lemma WordsTakeWord(s: string)
    requires s != [] && !IsSpace(s[0])
    ensures Words(s) == [s[..WordLength(s)]] + Words(s[WordLength(s)..])
  {
  }

  /**
    * `split()` cuts at every whitespace character: the words around one are the
    * words before it followed by the words after it. With `WordsAfterWord` this
    * fixes `Words` as the maximal non-whitespace runs, in order.
    */
  lemma {:induction false} WordsAtSpace(x: string, c: char, y: string)
    requires IsSpace(c)
    ensures Words(x + [c] + y) == Words(x) + Words(y)
    decreases |x|
  {
    var s := x + [c] + y;
    if x == [] {
      assert s[0] == c && s[1..] == y;
      WordsSkipSpace(s);
    } else if IsSpace(x[0]) {
      assert s[0] == x[0] && s[1..] == x[1..] + [c] + y;
      WordsSkipSpace(s);
      WordsSkipSpace(x);
      WordsAtSpace(x[1..], c, y);
    } else {
      WordsInWord(x, c, y);
    }
  }

  /** The case of `WordsAtSpace` where `x` starts with a word. */
  lemma {:induction false} WordsInWord(x: string, c: char, y: string)
    requires IsSpace(c) && x != [] && !IsSpace(x[0])
    ensures Words(x + [c] + y) == Words(x) + Words(y)
    decreases |x|, 0
  {
    var s := x + [c] + y;
    var n := WordLength(x);
    var w, rx := x[..n], x[n..];
    WordLengthExtend(x, [c] + y);
    CutInside(x, [c] + y, n);
    assert s == x + ([c] + y) && rx + ([c] + y) == rx + [c] + y;
    WordsTakeWord(s);
    WordsTakeWord(x);
    WordsAtSpace(rx, c, y);
  }

  /** Cutting `x + t` inside `x` cuts `x`. */
  lemma CutInside(x: string, t: string, n: nat)
    requires n <= |x|
    ensures (x + t)[..n] == x[..n] && (x + t)[n..] == x[n..] + t
    ensures x != [] ==> (x + t)[0] == x[0]
  {
  }

  /** Whitespace in front of a text adds no word. */
  lemma {:induction false} WordsAfterBlank(gap: string, y: string)
    requires forall i :: 0 <= i < |gap| ==> IsSpace(gap[i])
    ensures Words(gap + y) == Words(y)
  {
    if gap == [] {
      assert gap + y == y;
    } else {
      var rest := gap[1..];
      assert (gap + y)[0] == gap[0] && (gap + y)[1..] == rest + y;
      BlankTail(gap);
      WordsSkipSpace(gap + y);
      WordsAfterBlank(rest, y);
    }
  }

  /** A non-empty run of whitespace between two texts separates their words. */
  lemma WordsAtBlank(x: string, gap: string, y: string)
    requires gap != [] && forall i :: 0 <= i < |gap| ==> IsSpace(gap[i])
    ensures Words(x + gap + y) == Words(x) + Words(y)
  {
    var rest := gap[1..];
    var ry := rest + y;
    PeelFirst(x, gap, y);
    BlankTail(gap);
    WordsAtSpace(x, gap[0], ry);
    WordsAfterBlank(rest, y);
  }

  /** `x + gap + y` with the first character of `gap` set apart. */
  lemma PeelFirst<T>(x: seq<T>, gap: seq<T>, y: seq<T>)
    requires gap != []
    ensures x + gap + y == x + [gap[0]] + (gap[1..] + y)
  {
    assert gap == [gap[0]] + gap[1..];
  }

  /** A run of whitespace is still one after its first character. */
  lemma BlankTail(gap: string)
    requires gap != [] && forall i :: 0 <= i < |gap| ==> IsSpace(gap[i])
    ensures forall i :: 0 <= i < |gap| - 1 ==> IsSpace(gap[1..][i])
  {
    forall i | 0 <= i < |gap| - 1 ensures IsSpace(gap[1..][i]) { assert gap[1..][i] == gap[i + 1]; }
  }

  /** Two words with any run of whitespace between them come out of `clean_text` with one blank between them. */
  lemma CleanTextSeparates(a: string, gap: string, b: string)
    requires a != [] && NoSpace(a) && b != [] && NoSpace(b)
    requires gap != [] && forall i :: 0 <= i < |gap| ==> IsSpace(gap[i])
    ensures CleanText(a + gap + b) == a + " " + b
  {
    assert a + [] == a && b + [] == b;
    WordsAtBlank(a, gap, b);
    WordsAfterWord(a, []);
    WordsAfterWord(b, []);
    assert Words([]) == [];
    assert Words(a + gap + b) == [a, b];
    assert [a, b][1..] == [b];
    assert Join([a, b], " ") == a + " " + Join([b], " ");
  }

  /** `clean_text` is idempotent. */
  lemma CleanTextIdempotent(text: string)
    ensures CleanText(CleanText(text)) == CleanText(text)
  {
    WordsOfJoin(Words(text));
  }

  // ---------------------------------------------------------------- dates

  /** The fields of a Python `datetime` that `format_datetime` reads. */
  datatype DateTime = DateTime(year: int, month: int, day: int, hour: int, minute: int)

  /** The ranges a `datetime` object guarantees. */
  predicate ValidDateTime(dt: DateTime) {
    1 <= dt.year <= 9999 && 1 <= dt.month <= 12 && 1 <= dt.day <= 31
    && 0 <= dt.hour < 24 && 0 <= dt.minute < 60
  }

  /** The abbreviated Bengali month names, January first. */
  const MonthNames: seq<string> :=
    ["জানু", "ফেব", "মার্চ", "এপ্রিল", "মে", "জুন",
     "জুলাই", "আগ", "সেপ", "অক্টো", "নভেম", "ডিসেম"]

  /** `f"{n:02d}"` for `0 <= n < 100`. */
  function Pad2(n: nat): (s: string)
    requires n < 100
    ensures |s| == 2 && AllDigits(s) && DigitsValue(s) == n
  {
    var s := [DigitChar(n / 10), DigitChar(n % 10)];
    assert s[..1] == [DigitChar(n / 10)] && s[..1][..0] == [];
    assert DigitsValue(s[..1]) == n / 10;
    s
  }

  /** `format_datetime`: `"{day} {month name} {year}, {hh}:{mm}"`. */
  function FormatDatetime(dt: DateTime): string
    requires ValidDateTime(dt)
  {
    IntToString(dt.day) + " " + MonthNames[dt.month - 1] + " " + IntToString(dt.year)
      + ", " + Pad2(dt.hour) + ":" + Pad2(dt.minute)
  }

  lemma MonthNamesHaveNoBlank(k: nat)
    requires k < 12
    ensures ' ' !in MonthNames[k]
  {
  }

  /** The four blank-separated pieces of a formatted date. */
  function DatePieces(dt: DateTime): seq<string>
    requires ValidDateTime(dt)
  {
    [IntToString(dt.day), MonthNames[dt.month - 1], IntToString(dt.year) + ",",
     Pad2(dt.hour) + ":" + Pad2(dt.minute)]
  }

  /** Four pieces joined by `sep`. */
  lemma JoinFour(a: string, b: string, c: string, d: string, sep: string)
    ensures Join([a, b, c, d], sep) == a + sep + b + sep + c + sep + d
  {
    assert [a, b, c, d][1..] == [b, c, d];
    assert [b, c, d][1..] == [c, d];
    assert [c, d][1..] == [d];
    var cd := c + sep + d;
    assert Join([c, d], sep) == cd;
    assert Join([b, c, d], sep) == b + sep + cd;
    assert a + sep + (b + sep + cd) == a + sep + b + sep + c + sep + d;
  }

  /** Four pieces without `sep` joined by it split back into themselves. */
  lemma SplitFour(a: string, b: string, c: string, d: string, sep: char)
    requires sep !in a && sep !in b && sep !in c && sep !in d
    ensures Split(a + [sep] + b + [sep] + c + [sep] + d, sep) == [a, b, c, d]
  {
    JoinFour(a, b, c, d, [sep]);
    SplitJoin([a, b, c, d], sep);
  }

  lemma FormatDatetimeSplits(dt: DateTime)
    requires ValidDateTime(dt)
    ensures Split(FormatDatetime(dt), ' ') == DatePieces(dt)
  {
    var day, name, year, clock := IntToString(dt.day), MonthNames[dt.month - 1], IntToString(dt.year) + ",",
                                  Pad2(dt.hour) + ":" + Pad2(dt.minute);
    FormatDatetimeShape(dt);
    MonthNamesHaveNoBlank(dt.month - 1);
    NumberHasNoBlank(dt.day, "");
    NumberHasNoBlank(dt.year, ",");
    ClockHasNoBlank(dt.hour, dt.minute);
    SplitFour(day, name, year, clock, ' ');
  }

  /** The formatted date as its four pieces with a blank after each of the first three. */
  lemma FormatDatetimeShape(dt: DateTime)
    requires ValidDateTime(dt)
    ensures var p := DatePieces(dt);
      FormatDatetime(dt) == p[0] + [' '] + p[1] + [' '] + p[2] + [' '] + p[3]
  {
    var year := IntToString(dt.year);
    assert year + ", " == (year + ",") + [' '];
  }

  /** A number, followed by a suffix without blanks, has no blank. */
  lemma NumberHasNoBlank(n: int, suffix: string)
    requires ' ' !in suffix
    ensures ' ' !in IntToString(n) + suffix
  {
    var p := IntToString(n) + suffix;
    forall k | 0 <= k < |p| ensures p[k] != ' ' {
      if k >= |IntToString(n)| { assert p[k] == suffix[k - |IntToString(n)|]; }
    }
  }

  lemma ClockHasNoBlank(hour: nat, minute: nat)
    requires hour < 100 && minute < 100
    ensures ' ' !in Pad2(hour) + ":" + Pad2(minute)
  {
    var p := Pad2(hour) + ":" + Pad2(minute);
    assert forall k :: 0 <= k < |p| ==> p[k] != ' ';
  }

  /**
    * The formatted date splits at blanks into the day, the month name, the
    * year with its comma and the zero-padded clock, each of which gives back
    * the field it came from.
    */
  lemma FormatDatetimeFields(dt: DateTime)
    requires ValidDateTime(dt)
    ensures var parts := Split(FormatDatetime(dt), ' ');
      && |parts| == 4
      && ParseInt(parts[0]) == Some(dt.day)
      && parts[1] == MonthNames[dt.month - 1]
      && |parts[2]| > 1 && ParseInt(parts[2][..|parts[2]| - 1]) == Some(dt.year) && parts[2][|parts[2]| - 1] == ','
      && |parts[3]| == 5 && parts[3][2] == ':' && AllDigits(parts[3][..2]) && AllDigits(parts[3][3..])
      && DigitsValue(parts[3][..2]) == dt.hour && DigitsValue(parts[3][3..]) == dt.minute
  {
    FormatDatetimeSplits(dt);
    DatePiecesFields(dt);
  }

  /** Each of the four pieces gives back the field it came from. */
  lemma DatePiecesFields(dt: DateTime)
    requires ValidDateTime(dt)
    ensures var parts := DatePieces(dt);
      && ParseInt(parts[0]) == Some(dt.day)
      && parts[1] == MonthNames[dt.month - 1]
      && |parts[2]| > 1 && ParseInt(parts[2][..|parts[2]| - 1]) == Some(dt.year) && parts[2][|parts[2]| - 1] == ','
      && |parts[3]| == 5 && parts[3][2] == ':' && AllDigits(parts[3][..2]) && AllDigits(parts[3][3..])
      && DigitsValue(parts[3][..2]) == dt.hour && DigitsValue(parts[3][3..]) == dt.minute
  {
    var parts := DatePieces(dt);
    assert parts[0] == IntToString(dt.day) && parts[1] == MonthNames[dt.month - 1];
    assert parts[2] == IntToString(dt.year) + "," && parts[3] == Pad2(dt.hour) + ":" + Pad2(dt.minute);
    IntRoundTrip(dt.day);
    YearPiece(dt.year);
    ClockPiece(dt.hour, dt.minute);
  }

  /** The year piece: the year, then a comma. */
  lemma YearPiece(year: int)
    ensures var p := IntToString(year) + ",";
      |p| > 1 && ParseInt(p[..|p| - 1]) == Some(year) && p[|p| - 1] == ','
  {
    var p := IntToString(year) + ",";
    assert p[..|p| - 1] == IntToString(year);
    IntRoundTrip(year);
  }

  /** The clock piece: two digits of hour, a colon, two digits of minute. */
  lemma ClockPiece(hour: nat, minute: nat)
    requires hour < 100 && minute < 100
    ensures var p := Pad2(hour) + ":" + Pad2(minute);
      && |p| == 5 && p[2] == ':' && AllDigits(p[..2]) && AllDigits(p[3..])
      && DigitsValue(p[..2]) == hour && DigitsValue(p[3..]) == minute
  {
    var p := Pad2(hour) + ":" + Pad2(minute);
    assert p[..2] == Pad2(hour) && p[3..] == Pad2(minute);
  }
}
