/**
 CDMA SMS messages in parcels: responseCdmaSms writes them, constructCdmaSms reads them.

 A parcel is a sequence of 4-byte words.  A byte takes a word of its own, padded with zeros,
 and a read that finds no word left fails, leaves its target as it was and stays in place.
 The array sizes come from a header that is not part of the repository; they are parameters.
 */
module CdmaSms {
  import opened Basics

  /** RIL_CDMA_SMS_ADDRESS_MAX, RIL_CDMA_SMS_SUBADDRESS_MAX, RIL_CDMA_SMS_BEARER_DATA_MAX. */
  datatype Limits = Limits(address: nat, subaddress: nat, bearer: nat)

  datatype Address = Address(digitMode: int, numberMode: int, numberType: int, numberPlan: int, count: byte, digits: seq<byte>)

  datatype Subaddress = Subaddress(kind: int, odd: byte, count: byte, digits: seq<byte>)

  datatype Sms = Sms(teleservice: int, servicePresent: byte, category: int, address: Address, subaddress: Subaddress,
                     bearerLen: int, bearer: seq<byte>)

  const RIL_ERRNO_INVALID_RESPONSE := -1

  /** MIN(count, limit) turns of a loop. */
  function Used(count: int, limit: nat): nat {
    if count < 0 then 0 else if count < limit then count else limit
  }

  function Zeros(n: nat): (z: seq<byte>)
    ensures |z| == n
  {
    seq(n, _ => 0)
  }

  /** The slots beyond those in use hold zero. */
  function Zeroed(digits: seq<byte>, count: int): (r: seq<byte>)
    ensures |r| == |digits|
  {
    var n := Used(count, |digits|);
    digits[..n] + Zeros(|digits| - n)
  }

  predicate Fits(lim: Limits, m: Sms) {
    |m.address.digits| == lim.address && |m.subaddress.digits| == lim.subaddress && |m.bearer| == lim.bearer
  }

  function Clean(m: Sms): Sms {
    m.(address := m.address.(digits := Zeroed(m.address.digits, m.address.count)),
       subaddress := m.subaddress.(digits := Zeroed(m.subaddress.digits, m.subaddress.count)),
       bearer := Zeroed(m.bearer, m.bearerLen))
  }

  // ---------- what is written ----------

  function Words(b: seq<byte>): (w: seq<int>)
    ensures |w| == |b| && forall i :: 0 <= i < |b| ==> w[i] == b[i]
  {
    seq(|b|, i requires 0 <= i < |b| => b[i])
  }

  function InUse(digits: seq<byte>, count: int): seq<int> { Words(digits[..Used(count, |digits|)]) }

  function EncodeAddress(a: Address): seq<int> {
    [a.digitMode, a.numberMode, a.numberType, a.numberPlan, a.count] + InUse(a.digits, a.count)
  }

  function EncodeSubaddress(a: Subaddress): seq<int> { [a.kind, a.odd, a.count] + InUse(a.digits, a.count) }

  function EncodeBearer(m: Sms): seq<int> { [m.bearerLen] + InUse(m.bearer, m.bearerLen) }

  function Encode(m: Sms): seq<int> {
    [m.teleservice, m.servicePresent, m.category] + EncodeAddress(m.address) + EncodeSubaddress(m.subaddress) + EncodeBearer(m)
  }

  // ---------- what is read ----------

  /** The reader: its place, the status of the last read, whether all reads so far succeeded,
      and the two variables that reads go to. */
  datatype Reader = Reader(pos: nat, ok: bool, all: bool, t: int, ut: byte)

  function Int(w: seq<int>, r: Reader): Reader {
    if r.pos < |w| then r.(pos := r.pos + 1, ok := true, t := w[r.pos]) else r.(ok := false, all := false)
  }

  function Byte(w: seq<int>, r: Reader): Reader {
    if r.pos < |w| then r.(pos := r.pos + 1, ok := true, ut := w[r.pos] % 256) else r.(ok := false, all := false)
  }

  /** n bytes one after the other. */
  function Bytes(w: seq<int>, r: Reader, n: nat): (p: (Reader, seq<byte>))
    ensures |p.1| == n
  {
    if n == 0 then (r, [])
    else
      var (q, ds) := Bytes(w, r, n - 1);
      var q' := Byte(w, q);
      (q', ds + [q'.ut])
  }

  function Filled(ds: seq<byte>, limit: nat): seq<byte>
    requires |ds| <= limit
  {
    ds + Zeros(limit - |ds|)
  }

  function ParseAddress(lim: Limits, w: seq<int>, r: Reader): (Reader, Address) {
    var r1 := Int(w, r);
    var r2 := Int(w, r1);
    var r3 := Int(w, r2);
    var r4 := Int(w, r3);
    var r5 := Byte(w, r4);
    var (q, ds) := Bytes(w, r5, Used(r5.ut, lim.address));
    (q, Address(r1.t, r2.t, r3.t, r4.t, r5.ut, Filled(ds, lim.address)))
  }

  function ParseSubaddress(lim: Limits, w: seq<int>, r: Reader): (Reader, Subaddress) {
    var r1 := Int(w, r);
    var r2 := Byte(w, r1);
    var r3 := Byte(w, r2);
    var (q, ds) := Bytes(w, r3, Used(r3.ut, lim.subaddress));
    (q, Subaddress(r1.t, r2.ut, r3.ut, Filled(ds, lim.subaddress)))
  }

  function ParseBearer(lim: Limits, w: seq<int>, r: Reader): (Reader, int, seq<byte>) {
    var r1 := Int(w, r);
    var (q, ds) := Bytes(w, r1, Used(r1.t, lim.bearer));
    (q, r1.t, Filled(ds, lim.bearer))
  }

  function Parse(lim: Limits, w: seq<int>, r: Reader): (Reader, Sms) {
    var r1 := Int(w, r);
    var r2 := Byte(w, r1);
    var r3 := Int(w, r2);
    var (qa, address) := ParseAddress(lim, w, r3);
    var (qs, subaddress) := ParseSubaddress(lim, w, qa);
    var (q, len, bearer) := ParseBearer(lim, w, qs);
    (q, Sms(r1.t, r2.ut, r3.t, address, subaddress, len, bearer))
  }

  // ---------- the last status ----------

  /** Once a read has failed there is nothing left to read. */
  predicate AtEndIfFailed(w: seq<int>, r: Reader) { r.all || r.pos >= |w| }

  predicate Told(w: seq<int>, r: Reader) { AtEndIfFailed(w, r) && r.ok == r.all }

  lemma {:induction false} BytesTold(w: seq<int>, r: Reader, n: nat)
    requires Told(w, r)
    ensures Told(w, Bytes(w, r, n).0)
  {
    if n > 0 { BytesTold(w, r, n - 1); }
  }

  /** The status of the last read says whether every read succeeded. */
  lemma StatusTellsAll(lim: Limits, w: seq<int>, r: Reader)
    requires AtEndIfFailed(w, r)
    ensures Parse(lim, w, r).0.ok <==> Parse(lim, w, r).0.all
  {
    var r3 := Int(w, Byte(w, Int(w, r)));
    var r5 := Byte(w, Int(w, Int(w, Int(w, Int(w, r3)))));
    BytesTold(w, r5, Used(r5.ut, lim.address));
    var qa := ParseAddress(lim, w, r3).0;
    var s3 := Byte(w, Byte(w, Int(w, qa)));
    BytesTold(w, s3, Used(s3.ut, lim.subaddress));
    var r4 := Int(w, ParseSubaddress(lim, w, qa).0);
    BytesTold(w, r4, Used(r4.t, lim.bearer));
  }

  // ---------- the round trip ----------

  /** The words e stand in w from pos on. */
  ghost predicate Has(w: seq<int>, pos: nat, e: seq<int>) {
    pos + |e| <= |w| && forall i :: 0 <= i < |e| ==> w[pos + i] == e[i]
  }

  lemma HasParts(w: seq<int>, pos: nat, a: seq<int>, b: seq<int>)
    requires Has(w, pos, a + b)
    ensures Has(w, pos, a) && Has(w, pos + |a|, b)
  {
    forall i | 0 <= i < |a| ensures w[pos + i] == a[i] { assert (a + b)[i] == a[i]; }
    forall i | 0 <= i < |b| ensures w[pos + |a| + i] == b[i] { assert (a + b)[|a| + i] == b[i]; }
  }

  lemma {:induction false} BytesBack(w: seq<int>, r: Reader, b: seq<byte>, n: nat)
    requires n <= |b| && Has(w, r.pos, Words(b))
    ensures Bytes(w, r, n).1 == b[..n] && Bytes(w, r, n).0.pos == r.pos + n
    ensures r.ok && r.all ==> Bytes(w, r, n).0.ok && Bytes(w, r, n).0.all
  {
    if n > 0 {
      BytesBack(w, r, b, n - 1);
      assert w[r.pos + (n - 1)] == Words(b)[n - 1];
    }
  }

  /** The digits of an array come back, and zeros behind them. */
  lemma DigitsBack(w: seq<int>, r: Reader, digits: seq<byte>, count: int)
    requires Has(w, r.pos, InUse(digits, count)) && r.ok && r.all
    ensures var (q, ds) := Bytes(w, r, Used(count, |digits|));
            q.pos == r.pos + |InUse(digits, count)| && q.ok && q.all && Filled(ds, |digits|) == Zeroed(digits, count)
  {
    var n := Used(count, |digits|);
    BytesBack(w, r, digits[..n], n);
    assert digits[..n][..n] == digits[..n];
  }

  /** The five words in front of an address's digits. */
  lemma AddressHead(w: seq<int>, r: Reader, a: Address)
    requires r.pos + 5 <= |w| && w[r.pos] == a.digitMode && w[r.pos + 1] == a.numberMode
    requires w[r.pos + 2] == a.numberType && w[r.pos + 3] == a.numberPlan && w[r.pos + 4] == a.count
    ensures var r1 := Int(w, r);
            var r2 := Int(w, r1);
            var r3 := Int(w, r2);
            var r4 := Int(w, r3);
            r1.t == a.digitMode && r2.t == a.numberMode && r3.t == a.numberType && r4.t == a.numberPlan &&
            Byte(w, r4) == Reader(r.pos + 5, true, r.all, a.numberPlan, a.count)
  {
  }

  lemma AddressBack(lim: Limits, w: seq<int>, r: Reader, a: Address)
    requires |a.digits| == lim.address && Has(w, r.pos, EncodeAddress(a)) && r.all
    ensures var (q, b) := ParseAddress(lim, w, r);
            q.pos == r.pos + |EncodeAddress(a)| && q.ok && q.all && b == a.(digits := Zeroed(a.digits, a.count))
  {
    var fixed := [a.digitMode, a.numberMode, a.numberType, a.numberPlan, a.count];
    HasParts(w, r.pos, fixed, InUse(a.digits, a.count));
    assert w[r.pos + 0] == fixed[0] && w[r.pos + 1] == fixed[1] && w[r.pos + 2] == fixed[2];
    assert w[r.pos + 3] == fixed[3] && w[r.pos + 4] == fixed[4];
    AddressHead(w, r, a);
    DigitsBack(w, Reader(r.pos + 5, true, r.all, a.numberPlan, a.count), a.digits, a.count);
  }

  lemma SubaddressBack(lim: Limits, w: seq<int>, r: Reader, a: Subaddress)
    requires |a.digits| == lim.subaddress && Has(w, r.pos, EncodeSubaddress(a)) && r.all
    ensures var (q, b) := ParseSubaddress(lim, w, r);
            q.pos == r.pos + |EncodeSubaddress(a)| && q.ok && q.all && b == a.(digits := Zeroed(a.digits, a.count))
  {
    var fixed := [a.kind, a.odd, a.count];
    HasParts(w, r.pos, fixed, InUse(a.digits, a.count));
    assert w[r.pos + 0] == fixed[0] && w[r.pos + 1] == fixed[1] && w[r.pos + 2] == fixed[2];
    DigitsBack(w, Byte(w, Byte(w, Int(w, r))), a.digits, a.count);
  }

  lemma BearerBack(lim: Limits, w: seq<int>, r: Reader, m: Sms)
    requires |m.bearer| == lim.bearer && Has(w, r.pos, EncodeBearer(m)) && r.all
    ensures var (q, len, b) := ParseBearer(lim, w, r);
            q.pos == r.pos + |EncodeBearer(m)| && q.ok && q.all && len == m.bearerLen && b == Zeroed(m.bearer, m.bearerLen)
  {
    HasParts(w, r.pos, [m.bearerLen], InUse(m.bearer, m.bearerLen));
    assert w[r.pos + 0] == [m.bearerLen][0];
    DigitsBack(w, Int(w, r), m.bearer, m.bearerLen);
  }

  /** Where the four parts of a written message stand. */
  lemma HasSms(w: seq<int>, pos: nat, m: Sms)
    requires Has(w, pos, Encode(m))
    ensures pos + 3 <= |w| && w[pos] == m.teleservice && w[pos + 1] == m.servicePresent && w[pos + 2] == m.category
    ensures var a, s := pos + 3, pos + 3 + |EncodeAddress(m.address)|;
            Has(w, a, EncodeAddress(m.address)) && Has(w, s, EncodeSubaddress(m.subaddress)) &&
            Has(w, s + |EncodeSubaddress(m.subaddress)|, EncodeBearer(m))
  {
    var fixed := [m.teleservice, m.servicePresent, m.category];
    var a, s, b := EncodeAddress(m.address), EncodeSubaddress(m.subaddress), EncodeBearer(m);
    HasParts(w, pos, fixed + a + s, b);
    HasParts(w, pos, fixed + a, s);
    HasParts(w, pos, fixed, a);
    assert w[pos + 0] == fixed[0] && w[pos + 1] == fixed[1] && w[pos + 2] == fixed[2];
  }

  /** The first n digits stand in w from pos on, a word each. */
  ghost predicate DigitsAt(w: seq<int>, pos: nat, digits: seq<byte>, n: nat) {
    n <= |digits| && pos + n <= |w| && forall i :: 0 <= i < n ==> w[pos + i] == digits[i]
  }

  ghost predicate AddressAt(w: seq<int>, pos: nat, a: Address, n: nat) {
    pos + 5 <= |w| && w[pos] == a.digitMode && w[pos + 1] == a.numberMode && w[pos + 2] == a.numberType &&
    w[pos + 3] == a.numberPlan && w[pos + 4] == a.count && DigitsAt(w, pos + 5, a.digits, n)
  }

  ghost predicate SubaddressAt(w: seq<int>, pos: nat, a: Subaddress, n: nat) {
    pos + 3 <= |w| && w[pos] == a.kind && w[pos + 1] == a.odd && w[pos + 2] == a.count && DigitsAt(w, pos + 3, a.digits, n)
  }

  ghost predicate BearerAt(w: seq<int>, pos: nat, m: Sms, n: nat) {
    pos + 1 <= |w| && w[pos] == m.bearerLen && DigitsAt(w, pos + 1, m.bearer, n)
  }

  /** The words of a message place by place: as many digits as the count says and the array
      holds, and no bearer data for a negative length. */
  ghost predicate Layout(w: seq<int>, m: Sms) {
    var d := if m.address.count < |m.address.digits| then m.address.count else |m.address.digits|;
    var e := if m.subaddress.count < |m.subaddress.digits| then m.subaddress.count else |m.subaddress.digits|;
    var f := if m.bearerLen < 0 then 0 else if m.bearerLen < |m.bearer| then m.bearerLen else |m.bearer|;
    |w| == 12 + d + e + f && w[0] == m.teleservice && w[1] == m.servicePresent && w[2] == m.category &&
    AddressAt(w, 3, m.address, d) && SubaddressAt(w, 8 + d, m.subaddress, e) && BearerAt(w, 11 + d + e, m, f)
  }

  lemma HasDigits(w: seq<int>, pos: nat, digits: seq<byte>, count: int)
    requires Has(w, pos, InUse(digits, count))
    ensures DigitsAt(w, pos, digits, Used(count, |digits|))
  {
    assert forall i :: 0 <= i < Used(count, |digits|) ==> w[pos + i] == InUse(digits, count)[i];
  }

  lemma HasAddress(w: seq<int>, pos: nat, a: Address)
    requires Has(w, pos, EncodeAddress(a))
    ensures AddressAt(w, pos, a, Used(a.count, |a.digits|))
  {
    var fixed := [a.digitMode, a.numberMode, a.numberType, a.numberPlan, a.count];
    HasParts(w, pos, fixed, InUse(a.digits, a.count));
    assert w[pos + 0] == fixed[0] && w[pos + 1] == fixed[1] && w[pos + 2] == fixed[2];
    assert w[pos + 3] == fixed[3] && w[pos + 4] == fixed[4];
    HasDigits(w, pos + 5, a.digits, a.count);
  }

  lemma HasSubaddress(w: seq<int>, pos: nat, a: Subaddress)
    requires Has(w, pos, EncodeSubaddress(a))
    ensures SubaddressAt(w, pos, a, Used(a.count, |a.digits|))
  {
    var fixed := [a.kind, a.odd, a.count];
    HasParts(w, pos, fixed, InUse(a.digits, a.count));
    assert w[pos + 0] == fixed[0] && w[pos + 1] == fixed[1] && w[pos + 2] == fixed[2];
    HasDigits(w, pos + 3, a.digits, a.count);
  }

  lemma HasBearer(w: seq<int>, pos: nat, m: Sms)
    requires Has(w, pos, EncodeBearer(m))
    ensures BearerAt(w, pos, m, Used(m.bearerLen, |m.bearer|))
  {
    HasParts(w, pos, [m.bearerLen], InUse(m.bearer, m.bearerLen));
    assert w[pos + 0] == [m.bearerLen][0];
    HasDigits(w, pos + 1, m.bearer, m.bearerLen);
  }

  lemma EncodeLengths(m: Sms, d: nat, e: nat, f: nat)
    requires d == Used(m.address.count, |m.address.digits|) && e == Used(m.subaddress.count, |m.subaddress.digits|)
    requires f == Used(m.bearerLen, |m.bearer|)
    ensures |EncodeAddress(m.address)| == 5 + d && |EncodeSubaddress(m.subaddress)| == 3 + e
    ensures |Encode(m)| == 12 + d + e + f
  {
  }

  /** What is written, place by place. */
  lemma HasLayout(w: seq<int>, m: Sms, d: nat, e: nat, f: nat)
    requires d == Used(m.address.count, |m.address.digits|) && e == Used(m.subaddress.count, |m.subaddress.digits|)
    requires f == Used(m.bearerLen, |m.bearer|)
    requires Has(w, 0, Encode(m)) && |w| == |Encode(m)|
    ensures Layout(w, m)
  {
    EncodeLengths(m, d, e, f);
    HasSms(w, 0, m);
    HasAddress(w, 3, m.address);
    HasSubaddress(w, 8 + d, m.subaddress);
    HasBearer(w, 11 + d + e, m);
  }

  lemma EncodeLayout(m: Sms)
    ensures Layout(Encode(m), m)
  {
    HasLayout(Encode(m), m, Used(m.address.count, |m.address.digits|),
              Used(m.subaddress.count, |m.subaddress.digits|), Used(m.bearerLen, |m.bearer|));
  }

  /** Slot by slot: what is below the count, and zero from there on. */
  ghost predicate SlotsBack(digits: seq<byte>, count: int, back: seq<byte>) {
    |back| == |digits| && forall i :: 0 <= i < |digits| ==> back[i] == if i < count then digits[i] else 0
  }

  lemma CleanSlots(m: Sms)
    ensures SlotsBack(m.address.digits, m.address.count, Clean(m).address.digits)
    ensures SlotsBack(m.subaddress.digits, m.subaddress.count, Clean(m).subaddress.digits)
    ensures SlotsBack(m.bearer, m.bearerLen, Clean(m).bearer)
  {
  }

  /** Reading what was written gives the message back, with the unused slots zeroed, and
      takes exactly the words that were written. */
  lemma RoundTrip(lim: Limits, w: seq<int>, r: Reader, m: Sms)
    requires Fits(lim, m) && Has(w, r.pos, Encode(m)) && r.all
    ensures var (q, n) := Parse(lim, w, r);
            q.ok && q.all && q.pos == r.pos + |Encode(m)| && n == Clean(m) &&
            SlotsBack(m.address.digits, m.address.count, n.address.digits) &&
            SlotsBack(m.subaddress.digits, m.subaddress.count, n.subaddress.digits) &&
            SlotsBack(m.bearer, m.bearerLen, n.bearer)
  {
    CleanSlots(m);
    HasSms(w, r.pos, m);
    var r3 := Int(w, Byte(w, Int(w, r)));
    AddressBack(lim, w, r3, m.address);
    var qa := ParseAddress(lim, w, r3).0;
    SubaddressBack(lim, w, qa, m.subaddress);
    BearerBack(lim, w, ParseSubaddress(lim, w, qa).0, m);
  }

  /** The words e are those in w from pos on, a byte being the last eight bits of its word. */
  ghost predicate Echoes(w: seq<int>, pos: nat, e: seq<int>) {
    pos + |e| <= |w| && forall i :: 0 <= i < |e| ==> e[i] == w[pos + i] || e[i] == w[pos + i] % 256
  }

  lemma EchoesBoth(w: seq<int>, pos: nat, a: seq<int>, b: seq<int>)
    requires Echoes(w, pos, a) && Echoes(w, pos + |a|, b)
    ensures Echoes(w, pos, a + b)
  {
    forall i | 0 <= i < |a + b| ensures (a + b)[i] == w[pos + i] || (a + b)[i] == w[pos + i] % 256 {
      if i >= |a| { assert (a + b)[i] == b[i - |a|] && w[pos + i] == w[pos + |a| + (i - |a|)]; }
    }
  }

  /** A reader that has not failed by the end has not failed before. */
  lemma {:induction false} BytesEcho(w: seq<int>, r: Reader, n: nat)
    requires r.pos <= |w| && Bytes(w, r, n).0.all
    ensures r.all && Bytes(w, r, n).0.pos == r.pos + n && Echoes(w, r.pos, Words(Bytes(w, r, n).1))
  {
    if n > 0 {
      BytesEcho(w, r, n - 1);
      var ds, last := Bytes(w, r, n - 1).1, Bytes(w, r, n).1[n - 1];
      assert Words(ds + [last]) == Words(ds) + [last];
      EchoesBoth(w, r.pos, Words(ds), [last]);
    }
  }

  lemma FilledInUse(ds: seq<byte>, count: int, limit: nat)
    requires |ds| == Used(count, limit)
    ensures InUse(Filled(ds, limit), count) == Words(ds)
  {
    assert Filled(ds, limit)[..|ds|] == ds;
  }

  lemma AddressEchoes(lim: Limits, w: seq<int>, r: Reader)
    requires r.pos <= |w| && ParseAddress(lim, w, r).0.all
    ensures var (q, a) := ParseAddress(lim, w, r);
            r.all && q.pos == r.pos + |EncodeAddress(a)| && Echoes(w, r.pos, EncodeAddress(a))
  {
    var r4 := Int(w, Int(w, Int(w, Int(w, r))));
    var r5 := Byte(w, r4);
    BytesEcho(w, r5, Used(r5.ut, lim.address));
    var a := ParseAddress(lim, w, r).1;
    FilledInUse(Bytes(w, r5, Used(r5.ut, lim.address)).1, r5.ut, lim.address);
    var fixed := [a.digitMode, a.numberMode, a.numberType, a.numberPlan, a.count];
    assert r5.all && r5.pos == r.pos + 5;
    EchoesBoth(w, r.pos, fixed, InUse(a.digits, a.count));
  }

  lemma SubaddressEchoes(lim: Limits, w: seq<int>, r: Reader)
    requires r.pos <= |w| && ParseSubaddress(lim, w, r).0.all
    ensures var (q, a) := ParseSubaddress(lim, w, r);
            r.all && q.pos == r.pos + |EncodeSubaddress(a)| && Echoes(w, r.pos, EncodeSubaddress(a))
  {
    var r3 := Byte(w, Byte(w, Int(w, r)));
    BytesEcho(w, r3, Used(r3.ut, lim.subaddress));
    var a := ParseSubaddress(lim, w, r).1;
    FilledInUse(Bytes(w, r3, Used(r3.ut, lim.subaddress)).1, r3.ut, lim.subaddress);
    assert r3.all && r3.pos == r.pos + 3;
    EchoesBoth(w, r.pos, [a.kind, a.odd, a.count], InUse(a.digits, a.count));
  }

  lemma BearerEchoes(lim: Limits, w: seq<int>, r: Reader, m: Sms)
    requires r.pos <= |w| && ParseBearer(lim, w, r).0.all
    requires m.bearerLen == ParseBearer(lim, w, r).1 && m.bearer == ParseBearer(lim, w, r).2
    ensures r.all && ParseBearer(lim, w, r).0.pos == r.pos + |EncodeBearer(m)| && Echoes(w, r.pos, EncodeBearer(m))
  {
    var r1 := Int(w, r);
    BytesEcho(w, r1, Used(r1.t, lim.bearer));
    FilledInUse(Bytes(w, r1, Used(r1.t, lim.bearer)).1, r1.t, lim.bearer);
    EchoesBoth(w, r.pos, [m.bearerLen], InUse(m.bearer, m.bearerLen));
  }

  /** Writing what was read, if every read succeeded, gives the words read, and as many. */
  lemma ReadIsWritten(lim: Limits, w: seq<int>, r: Reader)
    requires r.pos <= |w| && Parse(lim, w, r).0.all
    ensures var (q, m) := Parse(lim, w, r); q.pos == r.pos + |Encode(m)| && Echoes(w, r.pos, Encode(m))
  {
    var m := Parse(lim, w, r).1;
    var r3 := Int(w, Byte(w, Int(w, r)));
    var qa := ParseAddress(lim, w, r3).0;
    var qs := ParseSubaddress(lim, w, qa).0;
    PlaceKept(lim, w, r3);
    BearerEchoes(lim, w, qs, m);
    SubaddressEchoes(lim, w, qa);
    AddressEchoes(lim, w, r3);
    var fixed := [m.teleservice, m.servicePresent, m.category];
    assert r3.all && r3.pos == r.pos + 3;
    EchoesFour(w, r.pos, fixed, EncodeAddress(m.address), EncodeSubaddress(m.subaddress), EncodeBearer(m));
  }

  lemma EchoesFour(w: seq<int>, pos: nat, f: seq<int>, a: seq<int>, s: seq<int>, b: seq<int>)
    requires Echoes(w, pos, f) && Echoes(w, pos + |f|, a) && Echoes(w, pos + |f| + |a|, s)
    requires Echoes(w, pos + |f| + |a| + |s|, b)
    ensures Echoes(w, pos, f + a + s + b)
  {
    EchoesBoth(w, pos, f, a);
    EchoesBoth(w, pos, f + a, s);
    EchoesBoth(w, pos, f + a + s, b);
  }

  lemma {:induction false} BytesWithin(w: seq<int>, r: Reader, n: nat)
    requires r.pos <= |w|
    ensures Bytes(w, r, n).0.pos <= |w|
  {
    if n > 0 { BytesWithin(w, r, n - 1); }
  }

  /** No reader gets past the end. */
  lemma PlaceKept(lim: Limits, w: seq<int>, r: Reader)
    requires r.pos <= |w|
    ensures var qa := ParseAddress(lim, w, r).0; qa.pos <= |w| && ParseSubaddress(lim, w, qa).0.pos <= |w|
  {
    var r5 := Byte(w, Int(w, Int(w, Int(w, Int(w, r)))));
    BytesWithin(w, r5, Used(r5.ut, lim.address));
    var s3 := Byte(w, Byte(w, Int(w, ParseAddress(lim, w, r).0)));
    BytesWithin(w, s3, Used(s3.ut, lim.subaddress));
  }

  /** What a reader makes of any parcel is a message it would read back unchanged. */
  lemma ParsedIsClean(lim: Limits, w: seq<int>, r: Reader)
    ensures var m := Parse(lim, w, r).1;
            Fits(lim, m) && Clean(m) == m && SlotsBack(m.address.digits, m.address.count, m.address.digits) &&
            SlotsBack(m.subaddress.digits, m.subaddress.count, m.subaddress.digits) &&
            SlotsBack(m.bearer, m.bearerLen, m.bearer)
  {
    CleanSlots(Parse(lim, w, r).1);
    var r3 := Int(w, Byte(w, Int(w, r)));
    var r5 := Byte(w, Int(w, Int(w, Int(w, Int(w, r3)))));
    var qa := ParseAddress(lim, w, r3).0;
    var s3 := Byte(w, Byte(w, Int(w, qa)));
    var r4 := Int(w, ParseSubaddress(lim, w, qa).0);
    FilledIsZeroed(Bytes(w, r5, Used(r5.ut, lim.address)).1, r5.ut, lim.address);
    FilledIsZeroed(Bytes(w, s3, Used(s3.ut, lim.subaddress)).1, s3.ut, lim.subaddress);
    FilledIsZeroed(Bytes(w, r4, Used(r4.t, lim.bearer)).1, r4.t, lim.bearer);
  }

  lemma FilledIsZeroed(ds: seq<byte>, count: int, limit: nat)
    requires |ds| == Used(count, limit)
    ensures var d := Filled(ds, limit); |d| == limit && Zeroed(d, count) == d
  {
    var d := Filled(ds, limit);
    assert d[..|ds|] == ds;
  }

  // ---------- the code ----------

  class Parcel {
    var words: seq<int>
    var pos: nat
    /** Whether every read so far found its word. */
    ghost var all: bool

    constructor (words: seq<int>)
      ensures this.words == words && pos == 0 && all
    {
      this.words, pos, all := words, 0, true;
    }

    method WriteInt32(x: int)
      modifies this`words
      ensures words == old(words) + [x]
    {
      words := words + [x];
    }

    method Write(b: byte)
      modifies this`words
      ensures words == old(words) + [b]
    {
      words := words + [b];
    }

    /** readInt32(&t): the status, and what t holds then. */
    method ReadInt32(t: int, ghost r: Reader) returns (ok: bool, t': int)
      requires At(r) && r.t == t
      modifies this`pos, this`all
      ensures At(Int(words, r)) && ok == Int(words, r).ok && t' == Int(words, r).t
    {
      if pos < |words| {
        ok, t', pos := true, words[pos], pos + 1;
      } else {
        ok, t', all := false, t, false;
      }
    }

    /** read(&ut, 1). */
    method Read(ut: byte, ghost r: Reader) returns (ok: bool, ut': byte)
      requires At(r) && r.ut == ut
      modifies this`pos, this`all
      ensures At(Byte(words, r)) && ok == Byte(words, r).ok && ut' == Byte(words, r).ut
    {
      if pos < |words| {
        ok, ut', pos := true, words[pos] % 256, pos + 1;
      } else {
        ok, ut', all := false, ut, false;
      }
    }

    ghost predicate At(r: Reader)
      reads this
    {
      pos == r.pos && all == r.all
    }

    /** The loops that write the slots in use. */
    method WriteDigits(digits: seq<byte>, count: int)
      modifies this`words
      ensures words == old(words) + InUse(digits, count)
    {
      var limit := if count < |digits| then count else |digits|;
      var i := 0;
      while i < limit
        invariant 0 <= i && (i <= limit || limit < 0 == i)
        invariant words == old(words) + Words(digits[..i])
      {
        assert Words(digits[..i + 1]) == Words(digits[..i]) + [digits[i]];
        Write(digits[i]);
        i := i + 1;
      }
    }

    /** The loops that read them, into an array of zeros. */
    method ReadDigits(count: int, limit: nat, ok0: bool, ut0: byte, ghost r: Reader)
      returns (ok: bool, ut: byte, digits: seq<byte>)
      requires At(r) && r.ut == ut0 && r.ok == ok0
      modifies this`pos, this`all
      ensures var (q, ds) := Bytes(words, r, Used(count, limit));
              At(q) && ok == q.ok && ut == q.ut && digits == Filled(ds, limit)
    {
      ok, ut, digits := ok0, ut0, Zeros(limit);
      var n := if count < limit then count else limit;
      var i := 0;
      while i < n
        invariant 0 <= i && (i <= n || n < 0 == i)
        invariant var (q, ds) := Bytes(words, r, i); At(q) && ok == q.ok && ut == q.ut && digits == Filled(ds, limit)
      {
        ghost var (q, ds) := Bytes(words, r, i);
        ok, ut := Read(ut, q);
        digits := digits[i := ut];
        assert Zeros(limit - i)[1..] == Zeros(limit - (i + 1));
        i := i + 1;
      }
    }

    method WriteAddress(a: Address)
      modifies this`words
      ensures words == old(words) + EncodeAddress(a)
    {
      WriteInt32(a.digitMode);
      WriteInt32(a.numberMode);
      WriteInt32(a.numberType);
      WriteInt32(a.numberPlan);
      Write(a.count);
      ghost var fixed := [a.digitMode, a.numberMode, a.numberType, a.numberPlan, a.count];
      assert words == old(words) + fixed;
      WriteDigits(a.digits, a.count);
      assert old(words) + fixed + InUse(a.digits, a.count) == old(words) + EncodeAddress(a);
    }

    method WriteSubaddress(a: Subaddress)
      modifies this`words
      ensures words == old(words) + EncodeSubaddress(a)
    {
      WriteInt32(a.kind);
      Write(a.odd);
      Write(a.count);
      ghost var fixed := [a.kind, a.odd, a.count];
      assert words == old(words) + fixed;
      WriteDigits(a.digits, a.count);
      assert old(words) + fixed + InUse(a.digits, a.count) == old(words) + EncodeSubaddress(a);
    }

    method WriteBearer(m: Sms)
      modifies this`words
      ensures words == old(words) + EncodeBearer(m)
    {
      WriteInt32(m.bearerLen);
      WriteDigits(m.bearer, m.bearerLen);
      assert old(words) + [m.bearerLen] + InUse(m.bearer, m.bearerLen) == old(words) + EncodeBearer(m);
    }

    method ReadAddress(lim: Limits, t0: int, ut0: byte, ghost r: Reader) returns (ok: bool, t: int, ut: byte, a: Address)
      requires At(r) && r.t == t0 && r.ut == ut0
      modifies this`pos, this`all
      ensures var (q, b) := ParseAddress(lim, words, r); At(q) && ok == q.ok && t == q.t && ut == q.ut && a == b
    {
      var digitMode, numberMode, numberType, numberPlan, count, digits;
      ok, digitMode := ReadInt32(t0, r);
      ghost var r1 := Int(words, r);
      ok, numberMode := ReadInt32(digitMode, r1);
      ghost var r2 := Int(words, r1);
      ok, numberType := ReadInt32(numberMode, r2);
      ghost var r3 := Int(words, r2);
      ok, numberPlan := ReadInt32(numberType, r3);
      ghost var r4 := Int(words, r3);
      ok, count := Read(ut0, r4);
      ghost var r5 := Byte(words, r4);
      ok, ut, digits := ReadDigits(count, lim.address, ok, count, r5);
      BytesKeepInt(words, r5, Used(count, lim.address));
      t := numberPlan;
      a := Address(digitMode, numberMode, numberType, numberPlan, count, digits);
    }

    method ReadSubaddress(lim: Limits, t0: int, ut0: byte, ghost r: Reader) returns (ok: bool, t: int, ut: byte, a: Subaddress)
      requires At(r) && r.t == t0 && r.ut == ut0
      modifies this`pos, this`all
      ensures var (q, b) := ParseSubaddress(lim, words, r); At(q) && ok == q.ok && t == q.t && ut == q.ut && a == b
    {
      var odd, count, digits;
      ok, t := ReadInt32(t0, r);
      ghost var r1 := Int(words, r);
      ok, odd := Read(ut0, r1);
      ghost var r2 := Byte(words, r1);
      ok, count := Read(odd, r2);
      ghost var r3 := Byte(words, r2);
      ok, ut, digits := ReadDigits(count, lim.subaddress, ok, count, r3);
      BytesKeepInt(words, r3, Used(count, lim.subaddress));
      a := Subaddress(t, odd, count, digits);
    }

    method ReadBearer(lim: Limits, t0: int, ut0: byte, ghost r: Reader) returns (ok: bool, len: int, bearer: seq<byte>)
      requires At(r) && r.t == t0 && r.ut == ut0
      modifies this`pos, this`all
      ensures var (q, n, b) := ParseBearer(lim, words, r); At(q) && ok == q.ok && len == n && bearer == b
    {
      ok, len := ReadInt32(t0, r);
      var ut;
      ok, ut, bearer := ReadDigits(len, lim.bearer, ok, ut0, Int(words, r));
    }
  }

  lemma {:induction false} BytesKeepInt(w: seq<int>, r: Reader, n: nat)
    ensures Bytes(w, r, n).0.t == r.t
  {
    if n > 0 { BytesKeepInt(w, r, n - 1); }
  }

  /** responseCdmaSms; `sizeOk` says that the length given is that of the structure. */
  method ResponseCdmaSms(p: Parcel, response: Option<Sms>, sizeOk: bool) returns (r: int)
    modifies p`words
    ensures r == if response.Some? && sizeOk then 0 else RIL_ERRNO_INVALID_RESPONSE
    ensures p.words == old(p.words) + if r == 0 then Encode(response.value) else []
    ensures r == 0 ==> Layout(p.words[|old(p.words)|..], response.value)
  {
    if response.None? || !sizeOk { return RIL_ERRNO_INVALID_RESPONSE; }
    var m := response.value;
    p.WriteInt32(m.teleservice);
    p.Write(m.servicePresent);
    p.WriteInt32(m.category);
    ghost var fixed := [m.teleservice, m.servicePresent, m.category];
    assert p.words == old(p.words) + fixed;
    p.WriteAddress(m.address);
    p.WriteSubaddress(m.subaddress);
    p.WriteBearer(m);
    Joined(old(p.words), fixed, EncodeAddress(m.address), EncodeSubaddress(m.subaddress), EncodeBearer(m));
    EncodeLayout(m);
    assert p.words[|old(p.words)|..] == Encode(m);
    r := 0;
  }

  lemma Joined(w: seq<int>, f: seq<int>, a: seq<int>, s: seq<int>, b: seq<int>)
    ensures w + f + a + s + b == w + (f + a + s + b)
  {
  }

  /** constructCdmaSms, with whatever its two variables hold before.  It looks only at the
      last status, and that is enough. */
  method ConstructCdmaSms(p: Parcel, lim: Limits, t0: int, ut0: byte) returns (ok: bool, m: Sms)
    requires p.all
    modifies p`pos, p`all
    ensures var (q, n) := Parse(lim, p.words, Reader(old(p.pos), true, true, t0, ut0)); p.At(q) && ok == q.ok && m == n
    ensures ok <==> p.all
    ensures ok && old(p.pos) <= |p.words| ==>
              p.pos == old(p.pos) + |Encode(m)| && Echoes(p.words, old(p.pos), Encode(m)) && Layout(Encode(m), m)
  {
    ghost var r := Reader(p.pos, true, true, t0, ut0);
    StatusTellsAll(lim, p.words, r);
    ghost var read := Parse(lim, p.words, r);
    if read.0.all && r.pos <= |p.words| { ReadIsWritten(lim, p.words, r); }
    EncodeLayout(read.1);
    var teleservice, servicePresent, category, t, ut, address, subaddress, len, bearer;
    ok, teleservice := p.ReadInt32(t0, r);
    ghost var r1 := Int(p.words, r);
    ok, servicePresent := p.Read(ut0, r1);
    ghost var r2 := Byte(p.words, r1);
    ok, category := p.ReadInt32(teleservice, r2);
    ghost var r3 := Int(p.words, r2);
    ok, t, ut, address := p.ReadAddress(lim, category, servicePresent, r3);
    ghost var r4 := ParseAddress(lim, p.words, r3).0;
    ok, t, ut, subaddress := p.ReadSubaddress(lim, t, ut, r4);
    ok, len, bearer := p.ReadBearer(lim, t, ut, ParseSubaddress(lim, p.words, r4).0);
    m := Sms(teleservice, servicePresent, category, address, subaddress, len, bearer);
  }
}
