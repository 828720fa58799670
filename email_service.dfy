/** The verification-code store of `EmailService`: a map from an email address
    to its code and the time the code expires. The clock and the random draw
    are parameters; building and sending the message is not modelled. */
module Verification {
  import opened Text

  /** Ten minutes, in milliseconds. */
  const CodeLifetimeMillis: int := 600000

  /** `VerificationData`. */
  datatype VerificationData = VerificationData(code: string, expirationTime: int)

  /** `String.format("%06d", n)`: six decimal digits, zero-padded on the left. */
  function FormatCode(n: nat): (code: string)
    requires n < 1000000
    ensures |code| == 6 && AllDigits(code)
    ensures DigitsValue(code) == n
  {
    assert Pow10(6) == 1000000;
    PadNat(n, 6)
  }

  /** Different draws give different codes, so the code identifies the draw. */
  lemma FormatCodeInjective(a: nat, b: nat)
    requires a < 1000000 && b < 1000000
    ensures FormatCode(a) == FormatCode(b) <==> a == b
  {
  }

  /** Whether `verifyCode(email, code)` answers true at time `now`. */
  function Verified(codes: map<string, VerificationData>, email: string, code: string, now: int): (ok: bool)
  {
    email in codes && now <= codes[email].expirationTime && codes[email].code == code
  }

  /** The store after `verifyCode(email, code)` at time `now`: an expired entry
      is evicted, a matching one is consumed, anything else stays. */
  function AfterVerify(codes: map<string, VerificationData>, email: string, code: string, now: int): (after: map<string, VerificationData>)
  {
    if email !in codes then codes
    else if now > codes[email].expirationTime then codes - {email}
    else if codes[email].code == code then codes - {email}
    else codes
  }

  /** Verifying touches no other email's entry, and removes this email's entry
      exactly when it had expired or the code matched. */
  lemma VerifyIsLocal(codes: map<string, VerificationData>, email: string, code: string, now: int)
    ensures forall e :: e != email ==>
      (e in AfterVerify(codes, email, code, now) <==> e in codes) &&
      (e in codes ==> AfterVerify(codes, email, code, now)[e] == codes[e])
    ensures email in AfterVerify(codes, email, code, now) <==>
      email in codes && now <= codes[email].expirationTime && codes[email].code != code
    ensures email in AfterVerify(codes, email, code, now) ==>
      AfterVerify(codes, email, code, now)[email] == codes[email]
  {
  }

  /** A code works once: after a successful verification the same email fails,
      whatever code is offered and whenever. */
  lemma CodeIsOneShot(codes: map<string, VerificationData>, email: string, code: string, now: int,
                      code2: string, later: int)
    requires Verified(codes, email, code, now)
    ensures !Verified(AfterVerify(codes, email, code, now), email, code2, later)
  {
  }

  /** Right after a code is sent, verification succeeds exactly for that code
      and no later than ten minutes after sending; any earlier code for the
      address no longer works. */
  lemma SendThenVerify(codes: map<string, VerificationData>, email: string, draw: nat, sentAt: int,
                       code: string, now: int)
    requires draw < 999999
    ensures var sent := codes[email := VerificationData(FormatCode(draw), sentAt + CodeLifetimeMillis)];
            Verified(sent, email, code, now) <==> code == FormatCode(draw) && now <= sentAt + 600000
  {
  }

  class EmailService {
    var verificationCodes: map<string, VerificationData>

    constructor ()
      ensures verificationCodes == map[]
    {
      verificationCodes := map[];
    }

    /** The store part of `sendVerificationCode`: `draw` is what
        `nextInt(999999)` returned and `now` the current time in milliseconds.
        Any earlier entry for the address is replaced. */
    method SendVerificationCode(email: string, draw: nat, now: int) returns (code: string)
      requires draw < 999999
      modifies this
      ensures |code| == 6 && AllDigits(code) && DigitsValue(code) == draw
      ensures verificationCodes == old(verificationCodes)[email := VerificationData(code, now + CodeLifetimeMillis)]
    {
      code := FormatCode(draw);
      verificationCodes := verificationCodes[email := VerificationData(code, now + CodeLifetimeMillis)];
    }

    /** `verifyCode` at time `now`. */
    method VerifyCode(email: string, code: string, now: int) returns (ok: bool)
      modifies this
      ensures ok == Verified(old(verificationCodes), email, code, now)
      ensures verificationCodes == AfterVerify(old(verificationCodes), email, code, now)
    {
      if email !in verificationCodes {
        return false;
      }
      var data := verificationCodes[email];
      if now > data.expirationTime {
        verificationCodes := verificationCodes - {email};
        return false;
      }
      if data.code == code {
        verificationCodes := verificationCodes - {email};
        return true;
      }
      return false;
    }
  }
}
