/** Phone verification by one-time password: `generateOTP`, `sendOTP` and
    `verifyOTP` over the `OTP` collection. The random draw, the clock and the
    two environment settings are parameters; the SMS is not modelled. */
module Otp {

  import opened Common
  import opened Text
  import Query
  import U = UserModel

  const DefaultLength: int := 6
  const DefaultExpiryMinutes: int := 10
  /** A record is deleted on the attempt that takes its count past this. */
  const MaxAttempts: nat := 3

  const SentMessage := "OTP sent successfully"
  /** The `ValidationError` `OTP.create` throws when the phone fails the schema. */
  const InvalidPhone := "OTP validation failed: phone: Invalid phone number"

  /** `parseInt(process.env.X) || d`: an unset or unparsable setting (`None`) and a
      setting of 0 both give the default. */
  function Setting(v: Option<int>, d: int): int {
    if v.None? || v.value == 0 then d else v.value
  }

  /** The values `Math.floor(Math.random() * Math.pow(10, length))` can take. */
  predicate DrawInRange(length: int, draw: nat) {
    if length > 0 then draw < Pow10(length) else draw == 0
  }

  /** `generateOTP` for a given draw: the draw in decimal, left-padded with zeros
      to `length` digits. The code reads back as the draw, so distinct draws give
      distinct codes. */
  function GenerateOtp(length: int, draw: nat): (r: string)
    requires DrawInRange(length, draw)
    ensures AllDigits(r) && r != []
    ensures length > 0 ==> |r| == length
    ensures DigitsValue(r) == draw
  {
    var width := if length > 0 then length else 0;
    PaddedDraw(draw, width);
    PadStart(NatToString(draw), width, '0')
  }

  /** Padding the decimal form of a draw below 10^width to `width` digits keeps
      its value. */
  lemma PaddedDraw(draw: nat, width: nat)
    requires if width > 0 then draw < Pow10(width) else draw == 0
    ensures var r := PadStart(NatToString(draw), width, '0');
            && AllDigits(r) && r != [] && DigitsValue(r) == draw
            && (width > 0 ==> |r| == width)
  {
    var s := NatToString(draw);
    NatToStringValue(draw);
    if width > 0 {
      NatToStringLength(draw, width);
    }
    if |s| < width {
      LeadingZerosValue(width - |s|, s);
    }
  }

  /** The normalisation both `sendOTP` and `verifyOTP` apply first. */
  function NormalizePhone(phone: string): (r: string)
    ensures StartsWith(r, "+251")
  {
    if StartsWith(phone, "0") then "+251" + phone[1..]
    else if StartsWith(phone, "+251") then phone
    else "+251" + phone
  }

  lemma NormalizeIdempotent(phone: string)
    ensures NormalizePhone(NormalizePhone(phone)) == NormalizePhone(phone)
  {
    var r := NormalizePhone(phone);
    assert r[..1] == "+";
  }

  /** The phones whose normalised form passes the schema's pattern, so that
      `sendOTP` stores a record: a local number `0` + 9 digits, an international
      `+251` + 9 digits, or 9 bare digits not starting with `0`. */
  lemma NormalizedAccepted(phone: string)
    ensures U.EthiopianPhoneShape(NormalizePhone(phone)) <==>
      || (|phone| == 10 && phone[0] == '0' && AllDigits(phone[1..]))
      || (|phone| == 13 && phone[..4] == "+251" && AllDigits(phone[4..]))
      || (|phone| == 9 && phone[0] != '0' && AllDigits(phone))
  {
    var r := NormalizePhone(phone);
    assert r[0] == '+';
    if StartsWith(phone, "0") {
      assert r[4..] == phone[1..];
      if |phone| == 13 { assert phone[0] != '+'; }
    } else if StartsWith(phone, "+251") {
      if |phone| == 9 { assert !IsDigit(phone[0]); }
    } else {
      assert r[4..] == phone;
      if |phone| == 9 && AllDigits(phone) {
        assert phone[0] != '0' by { assert phone[..1] != "0"; }
      }
      if U.EthiopianPhoneShape(r) { assert |phone| == 9 && phone[..1] != "0"; }
    }
  }

  /** A document of the `OTP` collection. */
  datatype OtpRecord = OtpRecord(
    id: Id,
    phone: string,
    otp: string,
    expiresAt: int,
    verified: bool,
    attempts: nat,
    createdAt: int)

  /** The schema's validators: a well-formed phone and a code. */
  predicate RecordOk(r: OtpRecord) {
    U.EthiopianPhoneShape(r.phone) && r.otp != ""
  }

  /** `{ phone, verified: false, expiresAt: { $gt: now } }` */
  predicate Live(r: OtpRecord, phone: string, now: int) {
    r.phone == phone && !r.verified && r.expiresAt > now
  }

  /** `findOne(...).sort({ createdAt: -1 })` on the live records of a phone: the
      index of the newest one (the earliest in collection order among equals). */
  function NewestLive(s: seq<OtpRecord>, phone: string, now: int): (r: Option<nat>)
    ensures r.None? <==> forall k :: 0 <= k < |s| ==> !Live(s[k], phone, now)
    ensures r.Some? ==> r.value < |s| && Live(s[r.value], phone, now)
    ensures r.Some? ==> forall k :: 0 <= k < |s| && Live(s[k], phone, now) ==>
                          s[k].createdAt <= s[r.value].createdAt
    decreases |s|
  {
    if s == [] then None
    else
      var rest := NewestLive(s[1..], phone, now);
      if !Live(s[0], phone, now) then
        (if rest.None? then None else Some(rest.value + 1))
      else if rest.None? || s[rest.value + 1].createdAt <= s[0].createdAt then Some(0)
      else Some(rest.value + 1)
  }

  /** The predicate `deleteMany({ phone })` removes by. */
  function OtherPhone(phone: string): OtpRecord -> bool {
    (r: OtpRecord) => r.phone != phone
  }

  /** The record `sendOTP` creates: unverified, no attempts, expiring after the
      configured number of minutes. */
  function NewRecord(id: Id, phone: string, code: string, expiryMinutes: int, now: int): OtpRecord {
    OtpRecord(id, phone, code, now + expiryMinutes * MinuteMs, false, 0, now)
  }

  /** The collection after a successful `sendOTP`: the phone's old records
      deleted, the new one added. */
  function Sent(s: seq<OtpRecord>, rec: OtpRecord): seq<OtpRecord> {
    Query.Filter(s, OtherPhone(rec.phone)) + [rec]
  }

  /** `i` holds the one record of `phone`. */
  predicate OnlyForPhone(s: seq<OtpRecord>, phone: string, i: nat) {
    && i < |s| && s[i].phone == phone
    && forall k :: 0 <= k < |s| && k != i ==> s[k].phone != phone
  }

  /** After `sendOTP` the new record is the only one for its phone. */
  lemma SentLeavesOne(s: seq<OtpRecord>, rec: OtpRecord)
    ensures var t := Sent(s, rec);
            OnlyForPhone(t, rec.phone, |t| - 1) && t[|t| - 1] == rec
  {
    var kept := Query.Filter(s, OtherPhone(rec.phone));
    assert forall k :: 0 <= k < |kept| ==> OtherPhone(rec.phone)(kept[k]);
  }

  /** How a `verifyOTP` call ends; only `Verified` is a success. */
  datatype Verdict = Verified | Expired | TooManyAttempts | InvalidCode

  function VerdictMessage(v: Verdict): string {
    match v
    case Verified => "OTP verified successfully"
    case Expired => "OTP expired or not found"
    case TooManyAttempts => "Too many failed attempts. Please request a new OTP"
    case InvalidCode => "Invalid OTP"
  }

  /** `verifyOTP` on a collection: the verdict and the collection afterwards.
      Every call that finds a record counts an attempt before anything else; the
      call that takes the count past `MaxAttempts` deletes the record whatever
      the code; a wrong code keeps it; the right one marks it verified. */
  function VerifyStep(s: seq<OtpRecord>, phone: string, code: string, now: int): (r: (Verdict, seq<OtpRecord>))
    ensures r.0 == Expired <==> NewestLive(s, NormalizePhone(phone), now).None?
    ensures r.0 == Expired ==> r.1 == s
    ensures r.0 != Expired ==>
              var i := NewestLive(s, NormalizePhone(phone), now).value;
              && (r.0 == TooManyAttempts <==> s[i].attempts >= MaxAttempts)
              && (r.0 == TooManyAttempts ==> r.1 == s[..i] + s[i + 1..])
              && (r.0 != TooManyAttempts ==>
                    && |r.1| == |s|
                    && r.1[i] == s[i].(attempts := s[i].attempts + 1, verified := r.0 == Verified)
                    && (r.0 == Verified <==> s[i].otp == code)
                    && forall k :: 0 <= k < |s| && k != i ==> r.1[k] == s[k])
  {
    match NewestLive(s, NormalizePhone(phone), now)
    case None => (Expired, s)
    case Some(i) =>
      var tried := s[i].(attempts := s[i].attempts + 1);
      if tried.attempts > MaxAttempts then (TooManyAttempts, s[..i] + s[i + 1..])
      else if tried.otp != code then (InvalidCode, s[i := tried])
      else (Verified, s[i := tried.(verified := true)])
  }

  /** When a phone has a single record, verifying finds it while it is live. */
  lemma VerifyFindsOnly(s: seq<OtpRecord>, phone: string, now: int, i: nat)
    requires OnlyForPhone(s, NormalizePhone(phone), i)
    ensures NewestLive(s, NormalizePhone(phone), now) ==
              if Live(s[i], NormalizePhone(phone), now) then Some(i) else None
  {
    var found := NewestLive(s, NormalizePhone(phone), now);
    if found.Some? {
      assert Live(s[found.value], NormalizePhone(phone), now);
    }
  }

  /** Right after `sendOTP`, the code just sent verifies while it has not expired. */
  lemma SendThenVerify(s: seq<OtpRecord>, rec: OtpRecord, phone: string, now: int)
    requires rec.phone == NormalizePhone(phone) && !rec.verified && rec.attempts == 0
    requires now < rec.expiresAt
    ensures VerifyStep(Sent(s, rec), phone, rec.otp, now).0 == Verified
  {
    SentLeavesOne(s, rec);
    var t := Sent(s, rec);
    VerifyFindsOnly(t, phone, now, |t| - 1);
  }

  /** Once a phone's only record is verified, every later call finds nothing. */
  lemma VerifiedOnlyOnce(s: seq<OtpRecord>, phone: string, code: string, now: int, i: nat,
                         later: string, afterwards: int)
    requires OnlyForPhone(s, NormalizePhone(phone), i)
    requires VerifyStep(s, phone, code, now).0 == Verified
    ensures VerifyStep(VerifyStep(s, phone, code, now).1, phone, later, afterwards).0 == Expired
  {
    var p := NormalizePhone(phone);
    VerifyFindsOnly(s, phone, now, i);
    var t := VerifyStep(s, phone, code, now).1;
    assert OnlyForPhone(t, p, i);
    VerifyFindsOnly(t, phone, afterwards, i);
  }

  /** A wrong code on a phone's only record keeps it as the only record, one
      attempt further on. */
  lemma WrongCodeKeepsRecord(s: seq<OtpRecord>, phone: string, code: string, now: int, i: nat)
    requires OnlyForPhone(s, NormalizePhone(phone), i)
    requires Live(s[i], NormalizePhone(phone), now)
    requires s[i].attempts < MaxAttempts && s[i].otp != code
    ensures var r := VerifyStep(s, phone, code, now);
            && r.0 == InvalidCode
            && OnlyForPhone(r.1, NormalizePhone(phone), i)
            && r.1[i] == s[i].(attempts := s[i].attempts + 1)
  {
    VerifyFindsOnly(s, phone, now, i);
  }

  /** Three wrong codes after `sendOTP` use up the record: the fourth call fails
      even with the right code, and the phone is left without a record. */
  lemma ThreeStrikes(s: seq<OtpRecord>, rec: OtpRecord, phone: string,
                     c1: string, c2: string, c3: string, t1: int, t2: int, t3: int, t4: int)
    requires rec.phone == NormalizePhone(phone) && !rec.verified && rec.attempts == 0
    requires c1 != rec.otp && c2 != rec.otp && c3 != rec.otp
    requires t1 < rec.expiresAt && t2 < rec.expiresAt && t3 < rec.expiresAt && t4 < rec.expiresAt
    ensures var r1 := VerifyStep(Sent(s, rec), phone, c1, t1);
            var r2 := VerifyStep(r1.1, phone, c2, t2);
            var r3 := VerifyStep(r2.1, phone, c3, t3);
            var r4 := VerifyStep(r3.1, phone, rec.otp, t4);
            && r1.0 == InvalidCode && r2.0 == InvalidCode && r3.0 == InvalidCode
            && r4.0 == TooManyAttempts
            && forall k :: 0 <= k < |r4.1| ==> r4.1[k].phone != rec.phone
  {
    var p := rec.phone;
    SentLeavesOne(s, rec);
    var s0 := Sent(s, rec);
    var i := |s0| - 1;
    WrongCodeKeepsRecord(s0, phone, c1, t1, i);
    var s1 := VerifyStep(s0, phone, c1, t1).1;
    WrongCodeKeepsRecord(s1, phone, c2, t2, i);
    var s2 := VerifyStep(s1, phone, c2, t2).1;
    WrongCodeKeepsRecord(s2, phone, c3, t3, i);
    var s3 := VerifyStep(s2, phone, c3, t3).1;
    VerifyFindsOnly(s3, phone, t4, i);
    var s4 := VerifyStep(s3, phone, rec.otp, t4).1;
    assert s4 == s3[..i] + s3[i + 1..];
    forall k | 0 <= k < |s4|
      ensures s4[k].phone != p
    {
      assert s4[k] == s3[k];
    }
  }

  /** Ids grow along the collection: they are handed out in insertion order. */
  predicate IdsIncreasing(s: seq<OtpRecord>) {
    forall i, j :: 0 <= i < j < |s| ==> s[i].id < s[j].id
  }

  /** A record with a smaller id than every stored one may go first. */
  lemma IncreasingCons(x: OtpRecord, s: seq<OtpRecord>)
    requires IdsIncreasing(s)
    requires forall k :: 0 <= k < |s| ==> x.id < s[k].id
    ensures IdsIncreasing([x] + s)
  {
    var r := [x] + s;
    forall i, j | 0 <= i < j < |r| ensures r[i].id < r[j].id {
      assert r[j] == s[j - 1];
      if i > 0 {
        assert r[i] == s[i - 1];
      }
    }
  }

  lemma {:induction false} FilterKeepsIncreasing(s: seq<OtpRecord>, p: OtpRecord -> bool)
    requires IdsIncreasing(s)
    ensures IdsIncreasing(Query.Filter(s, p))
    decreases |s|
  {
    if s != [] {
      assert IdsIncreasing(s[1..]);
      FilterKeepsIncreasing(s[1..], p);
      var rest := Query.Filter(s[1..], p);
      forall k | 0 <= k < |rest|
        ensures s[0].id < rest[k].id
      {
        var j :| 0 <= j < |s| - 1 && s[1..][j] == rest[k];
        assert s[j + 1] == rest[k];
      }
      if p(s[0]) {
        IncreasingCons(s[0], rest);
        assert Query.Filter(s, p) == [s[0]] + rest;
      } else {
        assert Query.Filter(s, p) == rest;
      }
    }
  }

  /** Every stored record passed the schema, and ids are unique and issued. */
  predicate StoreOk(s: seq<OtpRecord>, nextId: nat) {
    && IdsIncreasing(s)
    && forall i :: 0 <= i < |s| ==> s[i].id < nextId && RecordOk(s[i])
  }

  /** `verifyOTP` changes only `attempts` and `verified`, or deletes a record. */
  lemma VerifyStepKeepsStore(s: seq<OtpRecord>, nextId: nat, phone: string, code: string, now: int)
    requires StoreOk(s, nextId)
    ensures StoreOk(VerifyStep(s, phone, code, now).1, nextId)
  {
    var r := VerifyStep(s, phone, code, now);
    if r.0 == TooManyAttempts {
      var i := NewestLive(s, NormalizePhone(phone), now).value;
      StoreOkRemove(s, nextId, i);
    } else if r.0 != Expired {
      var i := NewestLive(s, NormalizePhone(phone), now).value;
      assert r.1 == s[i := r.1[i]];
      StoreOkUpdate(s, nextId, i, r.1[i]);
    }
  }

  /** Deleting one record keeps the collection well formed. */
  lemma StoreOkRemove(s: seq<OtpRecord>, nextId: nat, i: nat)
    requires StoreOk(s, nextId) && i < |s|
    ensures StoreOk(s[..i] + s[i + 1..], nextId)
  {
    var t := s[..i] + s[i + 1..];
    forall a, b | 0 <= a < b < |t|
      ensures t[a].id < t[b].id
    {
      var shift := if b < i then 0 else 1;
      assert t[b] == s[b + shift];
      if a < i {
        assert t[a] == s[a];
      } else {
        assert t[a] == s[a + 1];
      }
    }
    forall k | 0 <= k < |t|
      ensures t[k].id < nextId && RecordOk(t[k])
    {
      if k < i {
        assert t[k] == s[k];
      } else {
        assert t[k] == s[k + 1];
      }
    }
  }

  /** Saving a record that keeps its id, phone and code keeps the collection well formed. */
  lemma StoreOkUpdate(s: seq<OtpRecord>, nextId: nat, i: nat, rec: OtpRecord)
    requires StoreOk(s, nextId) && i < |s|
    requires rec.id == s[i].id && rec.phone == s[i].phone && rec.otp == s[i].otp
    ensures StoreOk(s[i := rec], nextId)
  {
  }

  /** The `OTP` collection. */
  class OtpStore {
    var records: seq<OtpRecord>
    var nextId: nat

    ghost predicate Valid()
      reads this
    {
      StoreOk(records, nextId)
    }

    constructor ()
      ensures Valid() && records == []
    {
      records := [];
      nextId := 0;
    }

    /** `sendOTP` with the random draw, the two settings and the clock given: the
        phone's records are deleted first, then the new one is created, which
        throws when the normalised phone fails the schema. Returns the code. */
    method SendOtp(phone: string, draw: nat, lengthSetting: Option<int>, expirySetting: Option<int>, now: int)
      returns (r: Result<string>)
      requires Valid()
      requires DrawInRange(Setting(lengthSetting, DefaultLength), draw)
      modifies this
      ensures Valid()
      ensures var p := NormalizePhone(phone);
              var code := GenerateOtp(Setting(lengthSetting, DefaultLength), draw);
              if U.EthiopianPhoneShape(p) then
                var rec := NewRecord(old(nextId), p, code, Setting(expirySetting, DefaultExpiryMinutes), now);
                r == Ok(code) && records == Sent(old(records), rec)
              else
                r == Err(ServerError(InvalidPhone)) && records == Query.Filter(old(records), OtherPhone(p))
    {
      var p := NormalizePhone(phone);
      var code := GenerateOtp(Setting(lengthSetting, DefaultLength), draw);
      FilterKeepsIncreasing(records, OtherPhone(p));
      records := Query.Filter(records, OtherPhone(p));
      if !U.EthiopianPhoneShape(p) {
        return Err(ServerError(InvalidPhone));
      }
      var rec := NewRecord(nextId, p, code, Setting(expirySetting, DefaultExpiryMinutes), now);
      records := records + [rec];
      nextId := nextId + 1;
      r := Ok(code);
    }

    /** `verifyOTP`: find the newest live record, count the attempt and save,
        delete the record past the limit, compare the code, mark it verified. */
    method VerifyOtp(phone: string, code: string, now: int) returns (v: Verdict)
      requires Valid()
      modifies this`records
      ensures Valid()
      ensures (v, records) == VerifyStep(old(records), phone, code, now)
    {
      VerifyStepKeepsStore(records, nextId, phone, code, now);
      var p := NormalizePhone(phone);
      var found := NewestLive(records, p, now);
      if found.None? {
        assert VerifyStep(records, phone, code, now) == (Expired, records);
        return Expired;
      }
      var i := found.value;
      ghost var before := records;
      var rec := records[i];
      rec := rec.(attempts := rec.attempts + 1);
      records := records[i := rec];
      if rec.attempts > MaxAttempts {
        records := records[..i] + records[i + 1..];
        assert records == before[..i] + before[i + 1..];
        assert VerifyStep(before, phone, code, now) == (TooManyAttempts, records);
        return TooManyAttempts;
      }
      if rec.otp != code {
        assert VerifyStep(before, phone, code, now) == (InvalidCode, records);
        return InvalidCode;
      }
      rec := rec.(verified := true);
      records := records[i := rec];
      assert records == before[i := rec];
      assert VerifyStep(before, phone, code, now) == (Verified, records);
      v := Verified;
    }
  }
}
