/** Chat PINs: rotating six-digit codes from the clock, or a stored six-digit PIN. */
module Pin {
  import opened Basics

  const WINDOW_SECONDS := 300

  datatype PinType = Rotating | Static

  datatype User = User(id: Uid, enabled: bool, pinType: PinType, customPin: Option<string>)

  /** HMAC-SHA256 of a user and a window under the server secret, as a 32-bit number. */
  type Mac = (Uid, nat) -> bv32

  // ----------------------------------------------------------- the clock

  /** time.Time.Unix: whole seconds, rounded down. */
  function Unix(t: Time): int { t / SECOND }

  /** Go's integer division, which truncates toward zero. */
  function TruncDiv(a: int, b: int): int
    requires b > 0
  {
    if a >= 0 then a / b else -((-a) / b)
  }

  function Window(t: Time): int { TruncDiv(Unix(t), WINDOW_SECONDS) }

  function CurrentExpiry(t: Time): Time { (Window(t) + 1) * WINDOW_SECONDS * SECOND }

  // ------------------------------------------------------------ the code

  function Digit(d: nat): char
    requires d < 10
  {
    '0' + d as char
  }

  /** fmt.Sprintf("%06d", n). */
  function SixDigits(n: nat): (s: string)
    requires n < 1_000_000
  {
    [Digit(n / 100_000), Digit(n / 10_000 % 10), Digit(n / 1000 % 10), Digit(n / 100 % 10), Digit(n / 10 % 10),
        Digit(n % 10)]
  }

  predicate IsDigit(c: char) { '0' <= c <= '9' }

  /** The pattern ^[0-9]{6}$. */
  predicate IsPin(s: string) {
    |s| == 6 && forall i :: 0 <= i < 6 ==> IsDigit(s[i])
  }

  function Value(c: char): nat
    requires IsDigit(c)
  {
    (c - '0') as nat
  }

  function PinValue(s: string): nat
    requires IsPin(s)
  {
    100_000 * Value(s[0]) + 10_000 * Value(s[1]) + 1000 * Value(s[2]) + 100 * Value(s[3]) + 10 * Value(s[4])
        + Value(s[5])
  }

  lemma SplitDigits(n: nat)
    requires n < 1_000_000
    ensures n / 100_000 < 10
    ensures n == 100_000 * (n / 100_000) + 10_000 * (n / 10_000 % 10) + 1000 * (n / 1000 % 10)
                 + 100 * (n / 100 % 10) + 10 * (n / 10 % 10) + n % 10
  {
    assert n / 100 == n / 10 / 10 && n / 1000 == n / 100 / 10 && n / 10_000 == n / 1000 / 10
           && n / 100_000 == n / 10_000 / 10;
  }

  /** Formatting and reading back are inverse: every number below a million has its own code. */
  lemma CodeRoundTrips(n: nat)
    requires n < 1_000_000
    ensures IsPin(SixDigits(n)) && PinValue(SixDigits(n)) == n
  {
    SplitDigits(n);
  }

  lemma DropDigit(x: nat, y: nat)
    requires y < 10
    ensures (10 * x + y) / 10 == x && (10 * x + y) % 10 == y
  {
  }

  lemma DigitsOf(a: nat, b: nat, c: nat, d: nat, e: nat, f: nat, n: nat)
    requires a < 10 && b < 10 && c < 10 && d < 10 && e < 10 && f < 10
    requires n == 100_000 * a + 10_000 * b + 1000 * c + 100 * d + 10 * e + f
    ensures n < 1_000_000 && n / 100_000 == a && n / 10_000 % 10 == b && n / 1000 % 10 == c
    ensures n / 100 % 10 == d && n / 10 % 10 == e && n % 10 == f
  {
    var n5 := 10_000 * a + 1000 * b + 100 * c + 10 * d + e;
    var n4 := 1000 * a + 100 * b + 10 * c + d;
    var n3 := 100 * a + 10 * b + c;
    var n2 := 10 * a + b;
    DropDigit(n5, f);
    DropDigit(n4, e);
    DropDigit(n3, d);
    DropDigit(n2, c);
    DropDigit(a, b);
    assert n / 10 == n5 && n / 100 == n4 && n / 1000 == n3 && n / 10_000 == n2 && n / 100_000 == a;
  }

  lemma DigitOfValue(c: char)
    requires IsDigit(c)
    ensures Value(c) < 10 && Digit(Value(c)) == c
  {
  }

  lemma PinRoundTrips(s: string)
    requires IsPin(s)
    ensures PinValue(s) < 1_000_000 && SixDigits(PinValue(s)) == s
  {
    forall i | 0 <= i < 6 ensures Value(s[i]) < 10 && Digit(Value(s[i])) == s[i] { DigitOfValue(s[i]); }
    DigitsOf(Value(s[0]), Value(s[1]), Value(s[2]), Value(s[3]), Value(s[4]), Value(s[5]), PinValue(s));
  }

  const TWO64: nat := 0x1_0000_0000_0000_0000

  /** uint64(w). */
  function AsUint64(w: int): nat { w % TWO64 }

  function CodeForWindow(mac: Mac, user: Uid, w: int): (s: string)
    ensures IsPin(s)
  {
    var n := mac(user, AsUint64(w)) as nat % 1_000_000;
    CodeRoundTrips(n);
    SixDigits(n)
  }

  /** The code of a window is the user's MAC of it, reduced to six digits: read back as a number
      it is that MAC modulo a million. */
  lemma CodeReadsTheMac(mac: Mac, user: Uid, w: int)
    requires -0x8000_0000_0000_0000 <= w < 0x8000_0000_0000_0000
    ensures PinValue(CodeForWindow(mac, user, w)) ==
            mac(user, if w >= 0 then w else w + 0x1_0000_0000_0000_0000) as nat % 1_000_000
  {
    CodeRoundTrips(mac(user, AsUint64(w)) as nat % 1_000_000);
  }

  // ---------------------------------------------------------- trimming

  predicate IsSpace(c: char) {
    c in {'\t', '\n', '\U{000B}', '\U{000C}', '\r', ' ', '\U{0085}', '\U{00A0}', '\U{1680}', '\U{2028}', '\U{2029}',
        '\U{202F}', '\U{205F}', '\U{3000}'}
    || '\U{2000}' <= c <= '\U{200A}'
  }

  /** The white space of Unicode, by code point. */
  lemma SpacesAre(c: char)
    ensures IsSpace(c) <==>
            || 9 <= c as int <= 13
            || c as int in {0x20, 0x85, 0xA0, 0x1680, 0x2028, 0x2029, 0x202F, 0x205F, 0x3000}
            || 0x2000 <= c as int <= 0x200A
  {
  }

  function TrimLeft(s: string): string {
    if s != [] && IsSpace(s[0]) then TrimLeft(s[1..]) else s
  }

  function TrimRight(s: string): string {
    if s != [] && IsSpace(s[|s| - 1]) then TrimRight(s[..|s| - 1]) else s
  }

  /** strings.TrimSpace. */
  function TrimSpace(s: string): string { TrimRight(TrimLeft(s)) }

  predicate Blank(s: string) {
    forall i :: 0 <= i < |s| ==> IsSpace(s[i])
  }

  /** A PIN survives trimming, whatever blanks were typed around it. */
  lemma TrimFindsPin(before: string, p: string, after: string)
    requires Blank(before) && IsPin(p) && Blank(after)
    ensures TrimSpace(before + p + after) == p
    ensures TrimSpace(p) == p
  {
    TrimLeftBlanks(before, p + after);
    assert before + p + after == before + (p + after);
    assert !IsSpace(p[0]) && !IsSpace(p[5]);
    assert TrimLeft(p + after) == p + after;
    TrimRightBlanks(p, after);
  }

  lemma {:induction false} TrimLeftBlanks(blank: string, s: string)
    requires Blank(blank)
    ensures TrimLeft(blank + s) == TrimLeft(s)
  {
    if blank == [] {
      assert blank + s == s;
    } else {
      assert (blank + s)[1..] == blank[1..] + s;
      TrimLeftBlanks(blank[1..], s);
    }
  }

  lemma {:induction false} TrimRightBlanks(s: string, blank: string)
    requires Blank(blank)
    ensures TrimRight(s + blank) == TrimRight(s)
  {
    if blank == [] {
      assert s + blank == s;
    } else {
      assert (s + blank)[..|s + blank| - 1] == s + blank[..|blank| - 1];
      TrimRightBlanks(s, blank[..|blank| - 1]);
    }
  }

  lemma {:induction false} TrimLeftIs(s: string) returns (a: string)
    ensures Blank(a) && s == a + TrimLeft(s) && (TrimLeft(s) != "" ==> !IsSpace(TrimLeft(s)[0]))
  {
    if s != "" && IsSpace(s[0]) {
      var rest := TrimLeftIs(s[1..]);
      a := [s[0]] + rest;
    } else {
      a := "";
    }
  }

  lemma {:induction false} TrimRightIs(s: string) returns (b: string)
    ensures Blank(b) && s == TrimRight(s) + b && (TrimRight(s) != "" ==> !IsSpace(TrimRight(s)[|TrimRight(s)| - 1]))
  {
    if s != "" && IsSpace(s[|s| - 1]) {
      var rest := TrimRightIs(s[..|s| - 1]);
      b := rest + [s[|s| - 1]];
    } else {
      b := "";
    }
  }

  /** Trimming takes blanks off both ends, all of them, and nothing else. */
  lemma TrimTakesBlanks(s: string) returns (a: string, b: string)
    ensures Blank(a) && Blank(b) && s == a + TrimSpace(s) + b
    ensures TrimSpace(s) != "" ==> !IsSpace(TrimSpace(s)[0]) && !IsSpace(TrimSpace(s)[|TrimSpace(s)| - 1])
  {
    a := TrimLeftIs(s);
    b := TrimRightIs(TrimLeft(s));
  }

  lemma TrimTwice(s: string)
    ensures TrimSpace(TrimSpace(s)) == TrimSpace(s)
  {
    var a, b := TrimTakesBlanks(s);
  }

  // -------------------------------------------------- showing and checking

  /** The code a user should share now; None when static is chosen but no PIN is set. */
  function CurrentCode(mac: Mac, u: User, now: Time): Option<string> {
    if u.pinType == Static then
      (if u.customPin.None? || u.customPin.value == "" then None else u.customPin)
    else Some(CodeForWindow(mac, u.id, Window(now)))
  }

  /** What pinStatusFor shows an owner: the code, and for rotating codes its expiry. */
  function PinStatus(mac: Mac, u: User, now: Time): (Option<string>, Option<Time>) {
    if !u.enabled then (None, None)
    else
      match CurrentCode(mac, u, now)
      case None => (None, None)
      case Some(code) => (Some(code), if u.pinType == Rotating then Some(CurrentExpiry(now)) else None)
  }

  function Valid(mac: Mac, u: User, provided: string, now: Time): bool {
    if !u.enabled then true
    else
      var p := TrimSpace(provided);
      if p == "" then false
      else if u.pinType == Static then u.customPin.Some? && p == u.customPin.value
      else p == CodeForWindow(mac, u.id, Window(now)) || p == CodeForWindow(mac, u.id, Window(now) - 1)
  }

  /** VerifyPin and VerifyPeerPin trim before they ask. */
  function Verify(mac: Mac, u: User, provided: string, now: Time): bool {
    Valid(mac, u, TrimSpace(provided), now)
  }

  // ------------------------------------------------------- window arithmetic

  /** The expiry lies within the next 300 seconds exactly for instants from the epoch on,
      or within the first second of a window boundary before it: truncation shifts every
      other earlier instant one window late. */
  lemma ExpiryIsNearIff(t: Time)
    ensures t < CurrentExpiry(t) <= t + 300_000_000_000
            <==> t >= 0 || t / 1_000_000_000 % 300 == 0
  {
    var s := Unix(t);
    assert s * SECOND <= t < (s + 1) * SECOND;
    if t < 0 {
      assert s < 0;
      var q := (-s) / WINDOW_SECONDS;
      assert -s == q * WINDOW_SECONDS + (-s) % WINDOW_SECONDS;
      assert Window(t) == -q;
      assert s % WINDOW_SECONDS == 0 <==> (-s) % WINDOW_SECONDS == 0;
    }
  }

  /** From the epoch on, window w is the 300 seconds from 300w. */
  lemma WindowSpan(t: Time, w: nat)
    requires t >= 0
    ensures Window(t) == w <==> w * 300_000_000_000 <= t < (w + 1) * 300_000_000_000
  {
    var s := Unix(t);
    assert s * SECOND <= t < (s + 1) * SECOND;
    var q := s / WINDOW_SECONDS;
    assert q * WINDOW_SECONDS <= s < (q + 1) * WINDOW_SECONDS;
    if q < w { assert q + 1 <= w; }
    if w < q { assert w + 1 <= q; }
  }

  /** Accepted is exactly: the code is the one of this window or of the one before. */
  lemma RotatingAcceptedIff(mac: Mac, u: User, code: string, now: Time)
    requires u.enabled && u.pinType == Rotating && IsPin(code)
    ensures Verify(mac, u, code, now) <==>
            code == CodeForWindow(mac, u.id, Window(now)) || code == CodeForWindow(mac, u.id, Window(now) - 1)
  {
    TrimFindsPin("", code, "");
  }

  /** A rotating code is accepted for the whole of its 600 seconds: its own window and the next. */
  lemma RotatingCodeLasts(mac: Mac, u: User, w: nat, t: Time)
    requires u.enabled && u.pinType == Rotating
    requires w * 300_000_000_000 <= t < (w + 2) * 300_000_000_000
    ensures Verify(mac, u, CodeForWindow(mac, u.id, w), t)
  {
    WindowSpan(t, w);
    WindowSpan(t, w + 1);
    RotatingAcceptedIff(mac, u, CodeForWindow(mac, u.id, w), t);
  }

  /** ... and, unless two windows share a code, at no other time from the epoch on. */
  lemma RotatingCodeLastsOnly(mac: Mac, u: User, w: nat, t: Time)
    requires u.enabled && u.pinType == Rotating && t >= 0
    requires forall v :: v != w && v in {Window(t), Window(t) - 1} ==>
             CodeForWindow(mac, u.id, v) != CodeForWindow(mac, u.id, w)
    ensures Verify(mac, u, CodeForWindow(mac, u.id, w), t) <==>
            w * 300_000_000_000 <= t < (w + 2) * 300_000_000_000
  {
    RotatingAcceptedIff(mac, u, CodeForWindow(mac, u.id, w), t);
    WindowSpan(t, w);
    WindowSpan(t, w + 1);
  }

  // -------------------------------------------------------- stored settings

  type Users = map<Uid, User>

  /** The three writers of PIN settings: registration, the settings request, deletion. */
  datatype Change =
    | Register(id: Uid)
    | Settings(id: Uid, enabled: bool, pinType: PinType, customPin: Option<string>)
    | Delete(id: Uid)

  datatype SettingsOutcome = BadPin | NoSuchUser | NeedsPin | Saved

  /** The settings request. A selection of static without any PIN is stored before the
      handler answers that one is needed. */
  function UpdatePinSettings(us: Users, id: Uid, enabled: bool, pinType: PinType, customPin: Option<string>)
    : (Users, SettingsOutcome)
  {
    var supplied := pinType == Static && customPin.Some?;
    if supplied && !IsPin(TrimSpace(customPin.value)) then (us, BadPin)
    else if id !in us then (us, NoSuchUser)
    else
      var u := us[id].(enabled := enabled, pinType := pinType);
      var u1 := if supplied then u.(customPin := Some(TrimSpace(customPin.value))) else u;
      (us[id := u1],
       if u1.enabled && u1.pinType == Static && (u1.customPin.None? || u1.customPin.value == "") then NeedsPin
       else Saved)
  }

  function Apply(us: Users, c: Change): Users {
    match c
    case Register(id) => if id in us then us else us[id := User(id, true, Rotating, None)]
    case Settings(id, enabled, pinType, customPin) => UpdatePinSettings(us, id, enabled, pinType, customPin).0
    case Delete(id) => if id in us then us[id := us[id].(enabled := false, customPin := None)] else us
  }

  function Exec(us: Users, cs: seq<Change>): Users {
    if cs == [] then us else Apply(Exec(us, cs[..|cs| - 1]), cs[|cs| - 1])
  }

  /** Every stored PIN is six digits. */
  ghost predicate PinsOk(us: Users) {
    forall id :: id in us ==> us[id].id == id && (us[id].customPin.Some? ==> IsPin(us[id].customPin.value))
  }

  lemma {:induction false} PinsStayOk(cs: seq<Change>)
    ensures PinsOk(Exec(map[], cs))
  {
    if cs != [] { PinsStayOk(cs[..|cs| - 1]); }
  }

  /** After any settings history, the code an enabled owner is shown at t0 is accepted, with
      any blanks around it: a rotating one until 300 seconds past its expiry, a static one
      for as long as the settings stand. */
  lemma ShownPinIsAccepted(mac: Mac, cs: seq<Change>, id: Uid, t0: Time, t1: Time, before: string, after: string)
    requires var us := Exec(map[], cs); id in us && us[id].enabled && PinStatus(mac, us[id], t0).0.Some?
    requires Blank(before) && Blank(after) && 0 <= t0 <= t1
    requires Exec(map[], cs)[id].pinType == Rotating ==> t1 < CurrentExpiry(t0) + 300_000_000_000
    ensures var u := Exec(map[], cs)[id];
            Verify(mac, u, before + PinStatus(mac, u, t0).0.value + after, t1)
  {
    PinsStayOk(cs);
    var u := Exec(map[], cs)[id];
    var code := PinStatus(mac, u, t0).0.value;
    assert IsPin(code);
    TrimFindsPin(before, code, after);
    if u.pinType == Rotating {
      WindowSpan(t0, Window(t0));
      RotatingCodeLasts(mac, u, Window(t0), t1);
    }
  }

  /** An enabled owner is shown no code exactly when static was chosen and no PIN is stored,
      and then nothing at all is accepted. */
  lemma NoCodeMeansNoEntry(mac: Mac, cs: seq<Change>, id: Uid, provided: string, t0: Time, t1: Time)
    requires var us := Exec(map[], cs); id in us && us[id].enabled
    ensures var u := Exec(map[], cs)[id];
            && (PinStatus(mac, u, t0).0.None? <==> u.pinType == Static && u.customPin.None?)
            && (PinStatus(mac, u, t0).0.None? ==> !Verify(mac, u, provided, t1))
  {
    PinsStayOk(cs);
  }

  /** A refused settings request leaves the stored settings alone, except that asking for
      static without a PIN is refused and stored all the same. */
  lemma RefusedButStored(us: Users, id: Uid, enabled: bool, pinType: PinType, customPin: Option<string>)
    requires PinsOk(us)
    ensures var (us1, outcome) := UpdatePinSettings(us, id, enabled, pinType, customPin);
            && (outcome in {BadPin, NoSuchUser} ==> us1 == us)
            && (outcome == NeedsPin <==>
                  id in us && enabled && pinType == Static && customPin.None? && us[id].customPin.None?)
            && (outcome == NeedsPin ==> us1 == us[id := us[id].(enabled := true, pinType := Static)])
            && PinsOk(us1)
  {
  }

  /** After any history, a request past the checks stores just what it asks for: the switch, the
      type and a PIN given with static, trimmed, which from then on is what is accepted, exactly;
      no PIN given, the old one stays. Nobody else's settings move. */
  lemma SettingsStoreWhatWasAsked(mac: Mac, cs: seq<Change>, id: Uid, enabled: bool, pinType: PinType,
                                  customPin: Option<string>, q: string, t: Time)
    ensures var us := Exec(map[], cs);
            var (us1, outcome) := UpdatePinSettings(us, id, enabled, pinType, customPin);
            var given := pinType == Static && customPin.Some?;
            && (outcome == BadPin <==> given && !IsPin(TrimSpace(customPin.value)))
            && (outcome == NoSuchUser <==> outcome != BadPin && id !in us)
            && us1.Keys == us.Keys && (forall other :: other in us && other != id ==> us1[other] == us[other])
            && (outcome in {NeedsPin, Saved} ==>
                  && id in us && us1[id].id == id && us1[id].enabled == enabled && us1[id].pinType == pinType
                  && (given ==> us1[id].customPin == Some(TrimSpace(customPin.value)))
                  && (given && enabled ==> (Verify(mac, us1[id], q, t) <==> TrimSpace(q) == TrimSpace(customPin.value)))
                  && (!given ==> us1[id].customPin == us[id].customPin))
  {
    PinsStayOk(cs);
    TrimTwice(q);
  }

  /** While the PIN is switched off nothing is shown and anything is accepted, whatever is stored;
      while it is on, an expiry is shown exactly with a rotating code, and it is that code's. */
  lemma ShownWhileOn(mac: Mac, u: User, provided: string, now: Time)
    ensures !u.enabled ==> PinStatus(mac, u, now) == (None, None) && Verify(mac, u, provided, now)
    ensures u.enabled && u.pinType == Rotating ==>
              PinStatus(mac, u, now) == (Some(CodeForWindow(mac, u.id, Window(now))), Some(CurrentExpiry(now)))
    ensures u.enabled && u.pinType == Static ==> PinStatus(mac, u, now).1 == None
  {
  }

  /** After any history, an account with a stored PIN that is switched off shows nothing and lets
      anything in; switched back to static without giving a PIN, it is as guarded as before. */
  lemma SwitchingOffIsUndone(mac: Mac, cs: seq<Change>, id: Uid, pinType: PinType, q: string, t: Time)
    requires var us := Exec(map[], cs); id in us && us[id].customPin.Some?
    ensures var us := Exec(map[], cs);
            var off := UpdatePinSettings(us, id, false, pinType, None).0;
            var (on, outcome) := UpdatePinSettings(off, id, true, Static, None);
            && PinStatus(mac, off[id], t) == (None, None) && Verify(mac, off[id], q, t)
            && outcome == Saved && on == us[id := us[id].(enabled := true, pinType := Static)]
            && PinStatus(mac, on[id], t).0 == us[id].customPin
            && (Verify(mac, on[id], q, t) <==> TrimSpace(q) == us[id].customPin.value)
  {
    PinsStayOk(cs);
    TrimTwice(q);
    var us := Exec(map[], cs);
    var off := UpdatePinSettings(us, id, false, pinType, None).0;
    ShownWhileOn(mac, off[id], q, t);
  }

  /** Past the checks, static is left without a PIN exactly when it is asked for, none is
      given and none is stored; only an enabled request for it is told so. */
  lemma StaticLeftUnsetIff(us: Users, id: Uid, enabled: bool, pinType: PinType, customPin: Option<string>)
    requires PinsOk(us)
    ensures var (us1, outcome) := UpdatePinSettings(us, id, enabled, pinType, customPin);
            outcome in {NeedsPin, Saved} ==>
              && id in us && id in us1
              && (us1[id].pinType == Static && us1[id].customPin.None?
                  <==> pinType == Static && customPin.None? && us[id].customPin.None?)
              && (outcome == NeedsPin <==> enabled && us1[id].pinType == Static && us1[id].customPin.None?)
  {
  }

  /** A first use of static that is switched off at once is stored without a PIN and
      answered as saved. */
  lemma UnsetStaticIsSaved()
    ensures UpdatePinSettings(map[1 := User(1, true, Rotating, None)], 1, false, Static, None)
            == (map[1 := User(1, false, Static, None)], Saved)
  {
    assert map[1 := User(1, true, Rotating, None)][1 := User(1, false, Static, None)] ==
           map[1 := User(1, false, Static, None)];
  }

  /** A new account is shown a code at once, and of all six-digit entries only that code and
      the previous window's open it. */
  lemma NewAccountIsProtected(mac: Mac, cs: seq<Change>, id: Uid, code: string, t: Time)
    requires id !in Exec(map[], cs) && IsPin(code)
    ensures var us := Exec(map[], cs + [Register(id)]);
            && id in us && PinStatus(mac, us[id], t).0.Some? && PinStatus(mac, us[id], t).1 == Some(CurrentExpiry(t))
            && (Verify(mac, us[id], code, t) <==>
                  Some(code) == PinStatus(mac, us[id], t).0 || code == CodeForWindow(mac, id, Window(t) - 1))
  {
    assert (cs + [Register(id)])[..|cs|] == cs;
    RotatingAcceptedIff(mac, Exec(map[], cs + [Register(id)])[id], code, t);
  }

  /** Deletion forgets the PIN for good: nothing is shown or asked for, and going back to
      static afterwards takes a new PIN, whatever was stored before. */
  lemma DeletionForgetsThePin(mac: Mac, cs: seq<Change>, id: Uid, provided: string, t: Time)
    requires id in Exec(map[], cs)
    ensures var us := Exec(map[], cs + [Delete(id)]);
            && id in us && PinStatus(mac, us[id], t) == (None, None) && Verify(mac, us[id], provided, t)
            && UpdatePinSettings(us, id, true, Static, None).1 == NeedsPin
            && forall other :: other in Exec(map[], cs) && other != id ==>
                  other in us && us[other] == Exec(map[], cs)[other]
  {
    assert (cs + [Delete(id)])[..|cs|] == cs;
  }
}
