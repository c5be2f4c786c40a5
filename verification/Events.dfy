// Kubernetes events, their keys, and the clock arithmetic of Go's time package.
module Events {

  // ---- Time: nanoseconds since the Unix epoch; durations are 64-bit and signed ----

  type Time = int
  type Duration = int

  const MAX_DURATION: Duration := 0x7FFF_FFFF_FFFF_FFFF
  const MIN_DURATION: Duration := -0x8000_0000_0000_0000
  const NANOS_PER_SECOND := 1_000_000_000
  // The instant of a zero metav1.Time: January 1 of year 1.
  const ZERO_TIME: Time := -62135596800 * NANOS_PER_SECOND

  function WrapInt64(x: int): (r: int)
    ensures MIN_DURATION <= r <= MAX_DURATION
    ensures (r - x) % 0x1_0000_0000_0000_0000 == 0
    ensures MIN_DURATION <= x <= MAX_DURATION ==> r == x
  {
    (x + 0x8000_0000_0000_0000) % 0x1_0000_0000_0000_0000 - 0x8000_0000_0000_0000
  }

  function WrapInt32(x: int): (r: int)
    ensures -0x8000_0000 <= r < 0x8000_0000
    ensures (r - x) % 0x1_0000_0000 == 0
    ensures -0x8000_0000 <= x < 0x8000_0000 ==> r == x
  {
    (x + 0x8000_0000) % 0x1_0000_0000 - 0x8000_0000
  }

  // Conversion of a Go int to a 64-bit uint.
  function ToUint(x: int): (r: nat)
    ensures 0 <= x <= MAX_DURATION ==> r == x
  {
    x % 0x1_0000_0000_0000_0000
  }

  // Time.Sub saturates instead of overflowing.
  function Sub(t: Time, u: Time): Duration {
    if t - u > MAX_DURATION then MAX_DURATION
    else if t - u < MIN_DURATION then MIN_DURATION
    else t - u
  }

  // time.Duration(seconds) * time.Second, which may overflow.
  function SecondsDuration(seconds: int): Duration {
    WrapInt64(seconds * NANOS_PER_SECOND)
  }

  // A clock that reads a date after the year 293: further from the zero time than a Duration can
  // say, so that the zero time has expired by any interval.
  predicate RealisticClock(now: Time) {
    now - ZERO_TIME > MAX_DURATION
  }

  // ---- Events ----

  datatype ObjectReference = ObjectReference(
    kind: string, namespace: string, name: string, fieldPath: string, uid: string, apiVersion: string)

  datatype EventSource = EventSource(component: string, host: string)

  datatype Event = Event(
    name: string, namespace: string, resourceVersion: string,
    labels: map<string, string>, annotations: map<string, string>,
    involvedObject: ObjectReference, reason: string, message: string, source: EventSource,
    firstTimestamp: Time, lastTimestamp: Time, count: int, eventType: string,
    reportingController: string, reportingInstance: string)

  // ---- Keys: the parts are joined with no separator ----

  function Join(parts: seq<string>): string {
    if parts == [] then "" else parts[0] + Join(parts[1..])
  }

  function EventKeyParts(e: Event): seq<string> {
    [e.source.component, e.source.host, e.involvedObject.kind, e.involvedObject.namespace,
     e.involvedObject.name, e.involvedObject.fieldPath, e.involvedObject.uid,
     e.involvedObject.apiVersion, e.eventType, e.reason, e.message]
  }

  function EventKey(e: Event): string {
    Join(EventKeyParts(e))
  }

  function AggregateKeyParts(e: Event): seq<string> {
    [e.source.component, e.source.host, e.involvedObject.kind, e.involvedObject.namespace,
     e.involvedObject.name, e.involvedObject.uid, e.involvedObject.apiVersion, e.eventType,
     e.reason, e.reportingController, e.reportingInstance]
  }

  function AggregateKeyByReason(e: Event): (string, string) {
    (Join(AggregateKeyParts(e)), e.message)
  }

  function CombinedMessage(e: Event): string {
    "(combined from similar events): " + e.message
  }

  function SpamKeyParts(e: Event): seq<string> {
    [e.source.component, e.source.host, e.involvedObject.kind, e.involvedObject.namespace,
     e.involvedObject.name, e.involvedObject.uid, e.involvedObject.apiVersion]
  }

  function SpamKey(e: Event): string {
    Join(SpamKeyParts(e))
  }

  // The part of an event its key is computed from, apart from the message.
  ghost predicate SameIdentity(a: Event, b: Event) {
    a.source == b.source && a.involvedObject == b.involvedObject &&
    a.eventType == b.eventType && a.reason == b.reason
  }

  // ---- Lower-case hexadecimal, as printed by %x ----

  function HexDigits(n: nat): string {
    if n < 16 then ["0123456789abcdef"[n]] else HexDigits(n / 16) + ["0123456789abcdef"[n % 16]]
  }

  function Hex(n: int): string {
    if n < 0 then "-" + HexDigits(-n) else HexDigits(n)
  }

  // The number a hexadecimal numeral stands for.
  function HexDigitValue(c: char): nat {
    if '0' <= c <= '9' then (c as int) - ('0' as int)
    else if 'a' <= c <= 'f' then (c as int) - ('a' as int) + 10
    else 0
  }

  function HexDigitsValue(s: string): nat {
    if s == "" then 0 else 16 * HexDigitsValue(s[..|s| - 1]) + HexDigitValue(s[|s| - 1])
  }

  function HexValue(s: string): int {
    if s != "" && s[0] == '-' then 0 - HexDigitsValue(s[1..]) else HexDigitsValue(s)
  }

  lemma {:induction false} HexDigitsRoundTrip(n: nat)
    ensures HexDigitsValue(HexDigits(n)) == n && HexDigits(n) != "" && HexDigits(n)[0] != '-'
  {
    if n >= 16 {
      HexDigitsRoundTrip(n / 16);
      var s := HexDigits(n);
      assert s[..|s| - 1] == HexDigits(n / 16);
      OneHexDigit(n % 16);
    } else {
      OneHexDigit(n);
      assert HexDigits(n)[..0] == "";
    }
  }

  lemma OneHexDigit(d: nat)
    requires d < 16
    ensures HexDigitValue("0123456789abcdef"[d]) == d && "0123456789abcdef"[d] != '-'
  {
  }

  lemma {:induction false} SignedHexValue(s: string)
    requires s != "" && s[0] != '-'
    ensures HexValue(s) == HexDigitsValue(s) && HexValue("-" + s) == 0 - HexDigitsValue(s)
  {
    assert ("-" + s)[1..] == s;
  }

  lemma HexRoundTrip(n: int)
    ensures HexValue(Hex(n)) == n
  {
    var d := if n < 0 then -n else n;
    HexDigitsRoundTrip(d);
    SignedHexValue(HexDigits(d));
  }
}
