/** The session cookie: `<expiry>.<user>.<signature>`, with the user name sanitized
    before it is written and again after it is read. */
module Session {
  import opened Text

  // The sanitizer ----------------------------------------------------------------------

  function ReplaceChar(s: string, from: char, to: char): (r: string)
    ensures |r| == |s|
    ensures forall i :: 0 <= i < |s| ==> r[i] == if s[i] == from then to else s[i]
  {
    if s == [] then [] else [if s[0] == from then to else s[0]] + ReplaceChar(s[1..], from, to)
  }

  /** Replaces pairs of dots, left to right, by a dash. */
  function ReplaceDotPairs(s: string): string {
    if |s| < 2 then s
    else if s[0] == '.' && s[1] == '.' then ['-'] + ReplaceDotPairs(s[2..])
    else [s[0]] + ReplaceDotPairs(s[1..])
  }

  predicate IsAllowed(c: char) {
    'a' <= c <= 'z' || '0' <= c <= '9' || c == '-' || c == '_' || c == '.' || c == '@'
  }

  /** The allowed characters of a text, in order. */
  function Allowed(s: string): (r: string)
    ensures forall i :: 0 <= i < |r| ==> IsAllowed(r[i])
  {
    if s == [] then []
    else
      var n := |s| - 1;
      Allowed(s[..n]) + if IsAllowed(s[n]) then [s[n]] else []
  }

  predicate IsOuterMark(c: char) {
    c == '.' || c == '-' || c == '_'
  }

  function Normalize(value: string): string {
    ReplaceDotPairs(ReplaceChar(ReplaceChar(ToLower(TrimSpace(value)), '\\', '-'), '/', '-'))
  }

  function Sanitized(value: string): string {
    Trim(Allowed(Normalize(value)), IsOuterMark)
  }

  method SanitizeSubject(input: string) returns (value: string)
    ensures value == Sanitized(input)
  {
    hide ToLower, TrimSpace, ReplaceChar, ReplaceDotPairs, Trim;
    value := ToLower(TrimSpace(input));
    value := ReplaceChar(value, '\\', '-');
    value := ReplaceChar(value, '/', '-');
    value := ReplaceDotPairs(value);
    var out := "";
    for i := 0 to |value|
      invariant out == Allowed(value[..i])
    {
      assert value[..i + 1][..i] == value[..i];
      if IsAllowed(value[i]) {
        out := out + [value[i]];
      }
    }
    assert value[..|value|] == value;
    value := Trim(out, IsOuterMark);
  }

  predicate IsNameCharacter(c: char) {
    'a' <= c <= 'z' || '0' <= c <= '9' || c in {'-', '_', '.', '@'}
  }

  /** What the sanitizer leaves: lower-case letters, digits and four marks, of which three may
      not stand at either end. */
  predicate IsClean(s: string) {
    && (forall i :: 0 <= i < |s| ==> IsNameCharacter(s[i]))
    && (s == [] || (s[0] !in {'.', '-', '_'} && s[|s| - 1] !in {'.', '-', '_'}))
  }

  predicate DotFree(s: string) {
    '.' !in s
  }

  lemma SanitizedIsClean(value: string)
    ensures IsClean(Sanitized(value))
  {
    hide Normalize, Trim;
    var kept := Allowed(Normalize(value));
    var out := Trim(kept, IsOuterMark);
    forall i | 0 <= i < |out|
      ensures IsAllowed(out[i])
    {
      assert out[i] in kept;
    }
  }

  lemma {:induction false} NoPairsToReplace(s: string)
    requires DotFree(s)
    ensures ReplaceDotPairs(s) == s
    decreases |s|
  {
    if |s| >= 2 {
      NoPairsToReplace(s[1..]);
      assert s == [s[0]] + s[1..];
    }
  }

  lemma {:induction false} AllAllowed(s: string)
    requires forall i :: 0 <= i < |s| ==> IsAllowed(s[i])
    ensures Allowed(s) == s
  {
    if s != [] {
      AllAllowed(s[..|s| - 1]);
      assert s == s[..|s| - 1] + [s[|s| - 1]];
    }
  }

  lemma NothingToReplace(s: string, from: char, to: char)
    requires from !in s
    ensures ReplaceChar(s, from, to) == s
  {
  }

  /** Clean text without a dot passes the sanitizer unchanged. */
  lemma CleanIsFixed(s: string)
    requires IsClean(s) && DotFree(s)
    ensures Sanitized(s) == s
  {
    hide TrimSpace, ToLower, ReplaceChar, ReplaceDotPairs, Allowed, Trim;
    if s == [] {
      SanitizedEmpty();
    } else {
      CleanIsPlain(s);
      NothingToReplace(s, '\\', '-');
      NothingToReplace(s, '/', '-');
      NoPairsToReplace(s);
      AllAllowed(s);
      TrimFixed(s, IsOuterMark);
    }
  }

  predicate HasDotPair(s: string) {
    exists i :: 0 < i < |s| && s[i - 1] == s[i] == '.'
  }

  lemma {:induction false} PairsAreReplaced(s: string)
    ensures if HasDotPair(s) then |ReplaceDotPairs(s)| < |s| else ReplaceDotPairs(s) == s
    decreases |s|
  {
    if |s| >= 2 {
      var n := if s[0] == '.' && s[1] == '.' then 2 else 1;
      PairsAreReplaced(s[n..]);
      assert s == s[..n] + s[n..];
      if HasDotPair(s[n..]) {
        var i :| 0 < i < |s[n..]| && s[n..][i - 1] == s[n..][i] == '.';
        assert s[i + n - 1] == s[i + n] == '.';
      }
      if n == 1 && HasDotPair(s) {
        var i :| 0 < i < |s| && s[i - 1] == s[i] == '.';
        assert s[n..][i - n - 1] == s[n..][i - n] == '.';
      }
    }
  }

  lemma {:induction false} AllowedIsNoLonger(s: string)
    ensures |Allowed(s)| <= |s|
  {
    if s != [] {
      AllowedIsNoLonger(s[..|s| - 1]);
    }
  }

  /** Clean text passes the sanitizer unchanged exactly when no two dots are adjacent. */
  lemma CleanIsFixedUnlessDotPair(s: string)
    requires IsClean(s)
    ensures Sanitized(s) == s <==> !HasDotPair(s)
  {
    hide TrimSpace, ToLower, ReplaceChar, ReplaceDotPairs, Allowed, Trim, TrimLeft, TrimRight;
    if s == [] {
      SanitizedEmpty();
    } else {
      CleanIsPlain(s);
      NothingToReplace(s, '\\', '-');
      NothingToReplace(s, '/', '-');
      PairsAreReplaced(s);
      AllAllowed(s);
      TrimFixed(s, IsOuterMark);
      AllowedIsNoLonger(ReplaceDotPairs(s));
      TrimIsNoLonger(Allowed(ReplaceDotPairs(s)));
    }
  }

  lemma TrimIsNoLonger(s: string)
    ensures |Trim(s, IsOuterMark)| <= |s|
  {
  }

  /** The second round of sanitizing, which reading a cookie is, changes a name exactly when
      the first left two adjacent dots. */
  lemma SanitizerIsIdempotentUnlessDotPair(user: string)
    ensures Sanitized(Sanitized(user)) == Sanitized(user) <==> !HasDotPair(Sanitized(user))
  {
    hide Sanitized;
    SanitizedIsClean(user);
    CleanIsFixedUnlessDotPair(Sanitized(user));
  }

  lemma {:induction false} NoPairIsLeft(s: string)
    ensures !HasDotPair(ReplaceDotPairs(s))
    ensures s != [] ==> ReplaceDotPairs(s) != [] && (ReplaceDotPairs(s)[0] == '.' ==> s[0] == '.')
    decreases |s|
  {
    if |s| >= 2 {
      NoPairIsLeft(s[if s[0] == '.' && s[1] == '.' then 2 else 1..]);
    }
  }

  lemma TrimmedHasPair(s: string)
    requires HasDotPair(Trim(s, IsOuterMark))
    ensures HasDotPair(s)
  {
    hide TrimLeft, TrimRight;
    var left := TrimLeft(s, IsOuterMark);
    var out := TrimRight(left, IsOuterMark);
    assert out == Trim(s, IsOuterMark);
    var i :| 0 < i < |out| && out[i - 1] == out[i] == '.';
    assert left[i - 1] == left[i] == '.';
    var d := |s| - |left|;
    assert s[i + d - 1] == s[i + d] == '.';
  }

  /** A user name from which no character is dropped is sanitized once and for all; two dots
      become adjacent only where something between them was dropped. */
  lemma NothingDroppedIsIdempotent(user: string)
    requires Allowed(Normalize(user)) == Normalize(user)
    ensures Sanitized(Sanitized(user)) == Sanitized(user)
  {
    hide TrimSpace, ToLower, ReplaceChar, ReplaceDotPairs, Trim, Allowed, HasDotPair;
    SanitizerIsIdempotentUnlessDotPair(user);
    NoPairIsLeft(ReplaceChar(ReplaceChar(ToLower(TrimSpace(user)), '\\', '-'), '/', '-'));
    if HasDotPair(Sanitized(user)) {
      TrimmedHasPair(Allowed(Normalize(user)));
    }
  }

  lemma CleanIsPlain(s: string)
    requires IsClean(s) && s != []
    ensures TrimSpace(s) == s && ToLower(s) == s && '\\' !in s && '/' !in s
  {
    hide TrimSpace, ToLower;
    PlainText(s);
  }

  lemma SanitizedEmpty()
    ensures Sanitized("") == ""
  {
  }

  // The cookie -----------------------------------------------------------------------------

  const DEFAULT_SUBJECT := "admin"
  const MAX_INT64: int := 0x7FFF_FFFF_FFFF_FFFF

  /** Signing is some function of the payload; its alphabet (section 5 of RFC 4648) has no dot. */
  ghost predicate SignsWithoutDots(sign: string -> string) {
    forall payload :: DotFree(sign(payload))
  }

  function CookieSubject(user: string): string {
    if Sanitized(user) == "" then DEFAULT_SUBJECT else Sanitized(user)
  }

  function IssueSession(user: string, expires: nat, sign: string -> string): string {
    var payload := Decimal(expires) + ['.'] + CookieSubject(user);
    payload + ['.'] + sign(payload)
  }

  /** A signed 64-bit decimal number. */
  function ParseInt64(s: string): Option<int> {
    var digits := if s != [] && (s[0] == '+' || s[0] == '-') then s[1..] else s;
    if digits == [] || !AllDigits(digits) then None
    else
      var value: int := if s[0] == '-' then 0 - DigitsValue(digits) else DigitsValue(digits);
      if -MAX_INT64 - 1 <= value <= MAX_INT64 then Some(value) else None
  }

  /** Who a cookie belongs to at a given time, if anybody. Two parts are the older form,
      which stands for the administrator. */
  function Subject(cookie: string, now: int, sign: string -> string): Option<string> {
    var parts := Split(cookie, '.');
    if |parts| == 2 then
      var expires := ParseInt64(parts[0]);
      if expires.None? || now > expires.value || sign(parts[0]) != parts[1] then None else Some(DEFAULT_SUBJECT)
    else if |parts| != 3 then None
    else
      var expires := ParseInt64(parts[0]);
      if expires.None? || now > expires.value then None
      else if sign(parts[0] + ['.'] + parts[1]) != parts[2] then None
      else
        var subject := Sanitized(parts[1]);
        if subject == "" then None else Some(subject)
  }

  lemma DecimalParses(n: nat)
    requires n <= MAX_INT64
    ensures ParseInt64(Decimal(n)) == Some(n) && DotFree(Decimal(n))
  {
    DecimalRoundTrip(n);
    var s := Decimal(n);
    assert IsDigit(s[0]);
    assert forall i :: 0 <= i < |s| ==> IsDigit(s[i]);
  }

  lemma SubjectIsClean(user: string)
    ensures IsClean(CookieSubject(user)) && CookieSubject(user) != ""
    ensures DotFree(CookieSubject(user)) <==> DotFree(Sanitized(user))
    ensures CookieSubject(user) == if Sanitized(user) == "" then "admin" else Sanitized(user)
  {
    hide Sanitized;
    SanitizedIsClean(user);
    assert DotFree(DEFAULT_SUBJECT) && IsClean(DEFAULT_SUBJECT);
    assert DotFree("");
  }

  lemma {:induction false} CountOfConcatenation(a: string, b: string, c: char)
    ensures Count(a + b, c) == Count(a, c) + Count(b, c)
  {
    if a == [] {
      assert a + b == b;
    } else {
      assert (a + b)[1..] == a[1..] + b;
      CountOfConcatenation(a[1..], b, c);
    }
  }

  lemma {:induction false} CountIsPositive(s: string, c: char)
    ensures Count(s, c) > 0 <==> c in s
  {
    if s != [] {
      CountIsPositive(s[1..], c);
      assert s == [s[0]] + s[1..];
    }
  }

  /** Dots in the user name make the cookie fall into too many parts. */
  lemma DotsBreakTheCookie(user: string, expires: nat, sign: string -> string)
    requires !DotFree(CookieSubject(user))
    ensures |Split(IssueSession(user, expires, sign), '.')| > 3
  {
    hide CookieSubject, Decimal, Count, Split;
    var subject := CookieSubject(user);
    var payload := Decimal(expires) + ['.'] + subject;
    SplitLength(payload + ['.'] + sign(payload), '.');
    CountOfConcatenation(payload + ['.'], sign(payload), '.');
    CountOfConcatenation(payload, ['.'], '.');
    CountOfConcatenation(Decimal(expires) + ['.'], subject, '.');
    CountOfConcatenation(Decimal(expires), ['.'], '.');
    CountIsPositive(subject, '.');
    CountIsPositive(['.'], '.');
  }

  lemma DotFreeCookieSplits(user: string, expires: nat, sign: string -> string)
    requires DotFree(CookieSubject(user)) && SignsWithoutDots(sign) && expires <= MAX_INT64
    ensures var payload := Decimal(expires) + ['.'] + CookieSubject(user);
      Split(IssueSession(user, expires, sign), '.') == [Decimal(expires), CookieSubject(user), sign(payload)]
  {
    hide CookieSubject, Decimal, Split;
    var head, subject := Decimal(expires), CookieSubject(user);
    var payload := head + ['.'] + subject;
    DecimalParses(expires);
    assert payload + ['.'] + sign(payload) == head + ['.'] + (subject + ['.'] + sign(payload));
    SplitAtSeparator(head, '.', subject + ['.'] + sign(payload));
    SplitAtSeparator(subject, '.', sign(payload));
    SplitWithoutSeparator(sign(payload), '.');
  }

  /** A cookie read with the same key before it expires names exactly the sanitized user,
      or the default one, if that name has no dot; and if it has one, nobody. */
  lemma CookieRoundTrip(user: string, expires: nat, now: int, sign: string -> string)
    requires SignsWithoutDots(sign) && now <= expires <= MAX_INT64
    ensures Subject(IssueSession(user, expires, sign), now, sign)
         == if !DotFree(Sanitized(user)) then None
            else Some(if Sanitized(user) == "" then "admin" else Sanitized(user))
  {
    hide CookieSubject, Decimal, Split, Sanitized, ParseInt64, IssueSession;
    SubjectIsClean(user);
    if DotFree(CookieSubject(user)) {
      DotFreeCookieSplits(user, expires, sign);
      DecimalParses(expires);
      CleanIsFixed(CookieSubject(user));
    } else {
      DotsBreakTheCookie(user, expires, sign);
    }
  }

  /** Past its expiry the cookie names nobody. */
  lemma ExpiredCookieNamesNobody(user: string, expires: nat, now: int, sign: string -> string)
    requires SignsWithoutDots(sign) && expires <= MAX_INT64 && now > expires
    ensures Subject(IssueSession(user, expires, sign), now, sign) == None
  {
    hide CookieSubject, Decimal, Split, Sanitized, ParseInt64, IssueSession;
    SubjectIsClean(user);
    if DotFree(CookieSubject(user)) {
      DotFreeCookieSplits(user, expires, sign);
      DecimalParses(expires);
    } else {
      DotsBreakTheCookie(user, expires, sign);
    }
  }

  // Every cookie ---------------------------------------------------------------------------

  function Payload(expiry: string, name: string): string {
    expiry + ['.'] + name
  }

  /** A number that is not past. */
  predicate IsUnexpired(expiry: string, now: int) {
    ParseInt64(expiry).Some? && now <= ParseInt64(expiry).value
  }

  /** Expiry, name and the signature of both, as the text of a cookie. */
  ghost predicate IsSignedFor(cookie: string, now: int, sign: string -> string, user: string) {
    exists expiry, name ::
      && cookie == Payload(expiry, name) + ['.'] + sign(Payload(expiry, name))
      && DotFree(expiry) && DotFree(name) && DotFree(sign(Payload(expiry, name)))
      && IsUnexpired(expiry, now)
      && user == Sanitized(name) != ""
  }

  /** The older form: expiry and its signature. */
  ghost predicate IsSignedExpiry(cookie: string, now: int, sign: string -> string) {
    exists expiry ::
      && cookie == Payload(expiry, sign(expiry))
      && DotFree(expiry) && DotFree(sign(expiry))
      && IsUnexpired(expiry, now)
  }

  /** Every text: it names somebody exactly when it is signed as one of the two forms. */
  lemma SubjectIsExactlyTheSigned(cookie: string, now: int, sign: string -> string, user: string)
    ensures Subject(cookie, now, sign) == Some(user)
       <==> IsSignedFor(cookie, now, sign, user) || (user == "admin" && IsSignedExpiry(cookie, now, sign))
  {
    hide Sanitized, ParseInt64;
    if Subject(cookie, now, sign) == Some(user) {
      NamedIsSigned(cookie, now, sign, user);
    }
    if IsSignedFor(cookie, now, sign, user) {
      var expiry, name :|
        && cookie == Payload(expiry, name) + ['.'] + sign(Payload(expiry, name))
        && DotFree(expiry) && DotFree(name) && DotFree(sign(Payload(expiry, name)))
        && IsUnexpired(expiry, now)
        && user == Sanitized(name) != "";
      SplitInThree(expiry, name, sign(Payload(expiry, name)));
      hide Split;
    }
    if IsSignedExpiry(cookie, now, sign) {
      var expiry :|
        && cookie == Payload(expiry, sign(expiry))
        && DotFree(expiry) && DotFree(sign(expiry))
        && IsUnexpired(expiry, now);
      SplitInTwo(expiry, sign(expiry));
      hide Split;
    }
  }

  lemma NamedIsSigned(cookie: string, now: int, sign: string -> string, user: string)
    requires Subject(cookie, now, sign) == Some(user)
    ensures IsSignedFor(cookie, now, sign, user) || (user == "admin" && IsSignedExpiry(cookie, now, sign))
  {
    hide Sanitized, ParseInt64, Split, Join;
    var parts := Split(cookie, '.');
    JoinInvertsSplit(cookie, '.');
    if |parts| == 2 {
      JoinOfTwo(parts);
      assert cookie == Payload(parts[0], sign(parts[0])) && IsUnexpired(parts[0], now);
    } else {
      JoinOfThree(parts);
      assert cookie == Payload(parts[0], parts[1]) + ['.'] + sign(Payload(parts[0], parts[1])) && IsUnexpired(parts[0], now);
    }
  }

  lemma JoinOfTwo(parts: seq<string>)
    requires |parts| == 2
    ensures Join(parts, '.') == Payload(parts[0], parts[1])
  {
  }

  lemma JoinOfThree(parts: seq<string>)
    requires |parts| == 3
    ensures Join(parts, '.') == Payload(parts[0], parts[1]) + ['.'] + parts[2]
  {
    JoinOfTwo(parts[1..]);
  }

  lemma SplitInTwo(a: string, b: string)
    requires DotFree(a) && DotFree(b)
    ensures Split(Payload(a, b), '.') == [a, b]
  {
    SplitAtSeparator(a, '.', b);
    SplitWithoutSeparator(b, '.');
  }

  lemma SplitInThree(a: string, b: string, c: string)
    requires DotFree(a) && DotFree(b) && DotFree(c)
    ensures Split(Payload(a, b) + ['.'] + c, '.') == [a, b, c]
  {
    assert Payload(a, b) + ['.'] + c == a + ['.'] + Payload(b, c);
    SplitAtSeparator(a, '.', Payload(b, c));
    SplitInTwo(b, c);
  }

  /** A text that does not end in the signature of what precedes it names nobody. */
  lemma ForgedCookieNamesNobody(cookie: string, now: int, sign: string -> string)
    requires forall expiry, name :: cookie != Payload(expiry, name) + ['.'] + sign(Payload(expiry, name))
    requires forall expiry :: cookie != Payload(expiry, sign(expiry))
    ensures Subject(cookie, now, sign) == None
  {
    hide Sanitized, ParseInt64, Split, Subject;
    if Subject(cookie, now, sign).Some? {
      SubjectIsExactlyTheSigned(cookie, now, sign, Subject(cookie, now, sign).value);
    }
  }

  /** An optional sign and decimal digits for a number within 64 bits. */
  predicate IsWritten(s: string, digits: string, value: int) {
    && digits != [] && AllDigits(digits)
    && (if s == ['-'] + digits then value == 0 - DigitsValue(digits)
        else value == DigitsValue(digits) && (s == digits || s == ['+'] + digits))
    && -0x8000_0000_0000_0000 <= value <= 0x7FFF_FFFF_FFFF_FFFF
  }

  lemma ParsedIntegers(s: string, value: int)
    ensures ParseInt64(s) == Some(value) <==> exists digits :: IsWritten(s, digits, value)
  {
    hide DigitsValue;
    if ParseInt64(s) == Some(value) {
      assert s == [s[0]] + s[1..];
      assert IsWritten(s, if s[0] == '+' || s[0] == '-' then s[1..] else s, value);
    }
    if digits :| IsWritten(s, digits, value) {
      assert IsDigit(digits[0]);
      if s != digits {
        assert s[1..] == digits;
      }
    }
  }

  lemma PlainWithoutSlashes(s: string)
    requires s != [] && !IsSpace(s[0]) && !IsSpace(s[|s| - 1]) && IsLowerText(s) && '\\' !in s && '/' !in s
    ensures Normalize(s) == ReplaceDotPairs(s)
  {
    hide ToLower, TrimSpace, ReplaceDotPairs;
    PlainText(s);
    NothingToReplace(s, '\\', '-');
    NothingToReplace(s, '/', '-');
  }

  lemma NoPairStep(c: char, s: string)
    requires s != [] && !(c == '.' && s[0] == '.')
    ensures ReplaceDotPairs([c] + s) == [c] + ReplaceDotPairs(s)
  {
    assert ([c] + s)[1..] == s;
  }

  lemma PairStep(s: string)
    ensures ReplaceDotPairs(['.', '.'] + s) == ['-'] + ReplaceDotPairs(s)
  {
    assert (['.', '.'] + s)[2..] == s;
  }

  lemma AllowedStep(s: string, c: char)
    ensures Allowed(s + [c]) == Allowed(s) + if IsAllowed(c) then [c] else []
  {
    assert (s + [c])[..|s|] == s;
  }

  lemma SanitizeOnce()
    ensures Sanitized("a.!.b") == "a..b"
  {
    hide Normalize, ReplaceDotPairs, Allowed, Trim;
    var first, second := "a.!.b", "a..b";
    PlainWithoutSlashes(first);
    NoPairsToReplace("b");
    NoPairStep('.', "b");
    assert ['.'] + "b" == ".b";
    NoPairStep('!', ".b");
    assert ['!'] + ".b" == "!.b";
    NoPairStep('.', "!.b");
    assert ['.'] + "!.b" == ".!.b";
    NoPairStep('a', ".!.b");
    assert ['a'] + ".!.b" == first;
    AllAllowed("a.");
    AllowedStep("a.", '!');
    AllowedStep("a.!", '.');
    AllowedStep("a.!.", 'b');
    assert "a." + ['!'] == "a.!" && "a.!" + ['.'] == "a.!." && "a.!." + ['b'] == first;
    assert "a." + ['.'] == "a.." && "a.." + ['b'] == second;
    assert Allowed(first) == second;
    TrimFixed(second, IsOuterMark);
  }

  lemma SanitizeAgain()
    ensures Sanitized("a..b") == "a-b"
  {
    hide Normalize, ReplaceDotPairs, Allowed, Trim;
    var second, third := "a..b", "a-b";
    PlainWithoutSlashes(second);
    NoPairsToReplace("b");
    PairStep("b");
    assert ['.', '.'] + "b" == "..b" && ['-'] + "b" == "-b";
    NoPairStep('a', "..b");
    assert ['a'] + "..b" == second && ['a'] + "-b" == third;
    AllAllowed(third);
    TrimFixed(third, IsOuterMark);
  }

  /** It does happen: dropping a character can join two dots, which the next round replaces. */
  lemma SanitizerIsNotIdempotent()
    ensures exists user :: Sanitized(Sanitized(user)) != Sanitized(user)
  {
    hide Sanitized;
    SanitizeOnce();
    SanitizeAgain();
    assert Sanitized(Sanitized("a.!.b")) != Sanitized("a.!.b");
  }
}
