/**
 * The in-memory OTP service (OTPService): a dictionary from mobile number to
 * the pending code, its expiry and the number of attempts made against it.
 *
 * The clock is an input: every operation that reads the current time takes
 * it as `now`, in seconds.
 */
module OtpServices {
  import opened Wrappers
  import opened Config

  /** One pending code. */
  datatype OtpEntry = OtpEntry(otp: string, expiresAt: int, attempts: int)

  type OtpStore = map<string, OtpEntry>

  const Digits: string := "0123456789"

  function Max(a: int, b: int): int {
    if a >= b then a else b
  }

  /** The validity a stored code gets: the argument unless it is missing or zero. */
  function ExpiryMinutes(settings: Settings, expiryMinutes: Option<int>): (m: int)
    ensures expiryMinutes.Some? && expiryMinutes.value != 0 ==> m == expiryMinutes.value
    ensures expiryMinutes.None? || expiryMinutes.value == 0 ==> m == settings.otpExpireMinutes
  {
    match expiryMinutes
    case Some(m) => if m != 0 then m else settings.otpExpireMinutes
    case None => settings.otpExpireMinutes
  }

  /** The store after store_otp: a fresh entry replaces whatever the number had. */
  function Stored(store: OtpStore, settings: Settings, mobile: string, otp: string,
                  expiryMinutes: Option<int>, now: int): OtpStore
  {
    store[mobile := OtpEntry(otp, now + ExpiryMinutes(settings, expiryMinutes) * SecondsPerMinute, 0)]
  }

  /**
   * verify_otp as a function of the store: the answer and the store after it.
   * An expired or exhausted entry is dropped; otherwise the attempt is counted
   * and a matching code consumes the entry.
   */
  function VerifyOutcome(store: OtpStore, maxAttempts: int, mobile: string, code: string, now: int)
    : (res: (bool, OtpStore))
    ensures forall m :: m != mobile ==> (m in res.1 <==> m in store)
    ensures forall m :: m != mobile && m in store ==> res.1[m] == store[m]
    ensures res.1.Keys <= store.Keys
    ensures res.0 ==> mobile !in res.1
  {
    if mobile !in store then (false, store)
    else
      var e := store[mobile];
      if now > e.expiresAt then (false, store - {mobile})
      else if e.attempts >= maxAttempts then (false, store - {mobile})
      else if e.otp == code then (true, store - {mobile})
      else (false, store[mobile := e.(attempts := e.attempts + 1)])
  }

  /** get_otp as a function of the store: the live code, dropping an expired one. */
  function PeekOutcome(store: OtpStore, mobile: string, now: int): (res: (Option<string>, OtpStore))
    ensures res.0.Some? <==> mobile in store && now <= store[mobile].expiresAt
    ensures res.0.Some? ==> res.0.value == store[mobile].otp && res.1 == store
    ensures res.0.None? ==> res.1 == store - {mobile}
  {
    if mobile !in store then (None, store)
    else if now > store[mobile].expiresAt then (None, store - {mobile})
    else (Some(store[mobile].otp), store)
  }

  class OtpService {
    const settings: Settings
    var store: OtpStore

    constructor (settings: Settings)
      ensures this.settings == settings && store == map[]
    {
      this.settings := settings;
      store := map[];
    }

    /** generate_otp: `length` decimal digits, each drawn by the random source. */
    method GenerateOtp(length: int) returns (code: string)
      ensures |code| == Max(0, length)
      ensures forall i :: 0 <= i < |code| ==> code[i] in Digits
    {
      code := "";
      var n := Max(0, length);
      for k := 0 to n
        invariant |code| == k
        invariant forall i :: 0 <= i < k ==> code[i] in Digits
      {
        var d: int :| 0 <= d < 10;
        code := code + [Digits[d]];
      }
    }

    /** store_otp */
    method StoreOtp(mobile: string, otp: string, expiryMinutes: Option<int>, now: int)
      modifies this
      ensures store == Stored(old(store), settings, mobile, otp, expiryMinutes, now)
    {
      var minutes := if expiryMinutes.Some? && expiryMinutes.value != 0 then expiryMinutes.value
        else settings.otpExpireMinutes;
      var expiresAt := now + minutes * SecondsPerMinute;
      store := store[mobile := OtpEntry(otp, expiresAt, 0)];
    }

    /** verify_otp */
    method VerifyOtp(mobile: string, otp: string, now: int) returns (ok: bool)
      modifies this
      ensures (ok, store) == VerifyOutcome(old(store), settings.otpMaxAttempts, mobile, otp, now)
    {
      if mobile !in store {
        return false;
      }
      var data := store[mobile];
      if now > data.expiresAt {
        store := store - {mobile};
        return false;
      }
      if data.attempts >= settings.otpMaxAttempts {
        store := store - {mobile};
        return false;
      }
      ghost var before := store;
      data := data.(attempts := data.attempts + 1);
      store := store[mobile := data];
      if data.otp == otp {
        store := store - {mobile};
        assert store == before - {mobile};
        return true;
      }
      return false;
    }

    /** get_otp */
    method GetOtp(mobile: string, now: int) returns (code: Option<string>)
      modifies this
      ensures (code, store) == PeekOutcome(old(store), mobile, now)
    {
      if mobile !in store {
        return None;
      }
      var data := store[mobile];
      if now > data.expiresAt {
        store := store - {mobile};
        return None;
      }
      return Some(data.otp);
    }

    /** clear_otp */
    method ClearOtp(mobile: string)
      modifies this
      ensures store == old(store) - {mobile}
    {
      store := store - {mobile};
    }
  }

  // -------------------------------------------------------------------- properties

  /** A code is accepted exactly when it is pending, unexpired, not exhausted and equal. */
  lemma VerifyAcceptsExactly(store: OtpStore, maxAttempts: int, mobile: string, code: string, now: int)
    ensures VerifyOutcome(store, maxAttempts, mobile, code, now).0 <==>
      && mobile in store
      && now <= store[mobile].expiresAt
      && store[mobile].attempts < maxAttempts
      && store[mobile].otp == code
  {
  }

  /** A rejected attempt on a live entry is counted and keeps the entry. */
  lemma VerifyWrongCodeCounts(store: OtpStore, maxAttempts: int, mobile: string, code: string, now: int)
    requires mobile in store && now <= store[mobile].expiresAt && store[mobile].attempts < maxAttempts
    requires store[mobile].otp != code
    ensures var (ok, s) := VerifyOutcome(store, maxAttempts, mobile, code, now);
      !ok && mobile in s && s[mobile] == store[mobile].(attempts := store[mobile].attempts + 1)
  {
  }

  /** Past its expiry a code is refused even when it is right, and the entry goes. */
  lemma ExpiredRefused(store: OtpStore, maxAttempts: int, mobile: string, now: int)
    requires mobile in store && now > store[mobile].expiresAt
    ensures VerifyOutcome(store, maxAttempts, mobile, store[mobile].otp, now) == (false, store - {mobile})
  {
  }

  /** A code is still good at the very second it expires. */
  lemma ExpiryBoundaryAccepted(store: OtpStore, maxAttempts: int, mobile: string)
    requires mobile in store && store[mobile].attempts < maxAttempts
    ensures VerifyOutcome(store, maxAttempts, mobile, store[mobile].otp, store[mobile].expiresAt).0
  {
  }

  /** A code is single use. */
  lemma SingleUse(store: OtpStore, maxAttempts: int, mobile: string, code: string, now: int, later: int)
    requires VerifyOutcome(store, maxAttempts, mobile, code, now).0
    ensures !VerifyOutcome(VerifyOutcome(store, maxAttempts, mobile, code, now).1, maxAttempts, mobile, code, later).0
  {
  }

  /** A fresh code verifies before it expires, when attempts are allowed at all. */
  lemma StoredThenVerified(store: OtpStore, settings: Settings, mobile: string, otp: string,
                           expiryMinutes: Option<int>, now: int, later: int)
    requires settings.otpMaxAttempts > 0
    requires later <= now + ExpiryMinutes(settings, expiryMinutes) * SecondsPerMinute
    ensures VerifyOutcome(Stored(store, settings, mobile, otp, expiryMinutes, now),
                          settings.otpMaxAttempts, mobile, otp, later)
         == (true, store - {mobile})
  {
    StoreThenClear(store, settings, mobile, otp, expiryMinutes, now);
  }

  /** Clearing a number right after storing its code leaves every other number's entry as it was. */
  lemma StoreThenClear(store: OtpStore, settings: Settings, mobile: string, otp: string,
                       expiryMinutes: Option<int>, now: int)
    ensures Stored(store, settings, mobile, otp, expiryMinutes, now) - {mobile} == store - {mobile}
  {
    var s := Stored(store, settings, mobile, otp, expiryMinutes, now);
    assert forall m :: m in s - {mobile} <==> m in store - {mobile};
  }

  /** Storing again replaces the code: the earlier one no longer verifies. */
  lemma StoreReplacesCode(store: OtpStore, settings: Settings, mobile: string, first: string, second: string,
                            now: int, later: int, at: int)
    requires first != second
    ensures !VerifyOutcome(Stored(Stored(store, settings, mobile, first, None, now), settings, mobile, second, None, later),
                           settings.otpMaxAttempts, mobile, first, at).0
  {
  }

  /** get_otp returns the code that verify_otp would accept, and leaves the attempts alone. */
  lemma PeekMatchesVerify(store: OtpStore, maxAttempts: int, mobile: string, now: int)
    requires PeekOutcome(store, mobile, now).0.Some?
    ensures PeekOutcome(store, mobile, now).1 == store
    ensures VerifyOutcome(store, maxAttempts, mobile, PeekOutcome(store, mobile, now).0.value, now).0
      <==> store[mobile].attempts < maxAttempts
  {
  }

  /** A run of attempts, each a code and the time it is made. */
  function VerifyEach(store: OtpStore, maxAttempts: int, mobile: string, tries: seq<(string, int)>)
    : (res: (seq<bool>, OtpStore))
    ensures |res.0| == |tries|
    decreases |tries|
  {
    if tries == [] then ([], store)
    else
      var (ok, s) := VerifyOutcome(store, maxAttempts, mobile, tries[0].0, tries[0].1);
      var (rest, s') := VerifyEach(s, maxAttempts, mobile, tries[1..]);
      ([ok] + rest, s')
  }

  /** Wrong codes within the expiry are all refused and each one is counted. */
  lemma {:induction false} WrongCodesCounted(store: OtpStore, maxAttempts: int, mobile: string, tries: seq<(string, int)>)
    requires mobile in store
    requires store[mobile].attempts + |tries| <= maxAttempts
    requires forall j :: 0 <= j < |tries| ==> tries[j].0 != store[mobile].otp && tries[j].1 <= store[mobile].expiresAt
    ensures forall j :: 0 <= j < |tries| ==> !VerifyEach(store, maxAttempts, mobile, tries).0[j]
    ensures var s := VerifyEach(store, maxAttempts, mobile, tries).1;
      mobile in s && s[mobile] == store[mobile].(attempts := store[mobile].attempts + |tries|)
    decreases |tries|
  {
    if tries != [] {
      var e := store[mobile];
      var s := store[mobile := e.(attempts := e.attempts + 1)];
      assert VerifyOutcome(store, maxAttempts, mobile, tries[0].0, tries[0].1) == (false, s);
      WrongCodesCounted(s, maxAttempts, mobile, tries[1..]);
      assert s[mobile].(attempts := s[mobile].attempts + |tries[1..]|) == e.(attempts := e.attempts + |tries|);
      var rest := VerifyEach(s, maxAttempts, mobile, tries[1..]);
      assert VerifyEach(store, maxAttempts, mobile, tries) == ([false] + rest.0, rest.1);
    }
  }

  /**
   * After OTP_MAX_ATTEMPTS wrong codes on a fresh entry, the right code is
   * refused too and the entry is dropped.
   */
  lemma LockedOutAfterMaxAttempts(store: OtpStore, settings: Settings, mobile: string, otp: string,
                                  now: int, tries: seq<(string, int)>, at: int)
    requires |tries| == settings.otpMaxAttempts
    requires forall j :: 0 <= j < |tries| ==> tries[j].0 != otp && tries[j].1 <= now + settings.otpExpireMinutes * SecondsPerMinute
    requires at <= now + settings.otpExpireMinutes * SecondsPerMinute
    ensures var s := VerifyEach(Stored(store, settings, mobile, otp, None, now), settings.otpMaxAttempts, mobile, tries).1;
      VerifyOutcome(s, settings.otpMaxAttempts, mobile, otp, at) == (false, s - {mobile})
  {
    var s0 := Stored(store, settings, mobile, otp, None, now);
    WrongCodesCounted(s0, settings.otpMaxAttempts, mobile, tries);
  }
}
