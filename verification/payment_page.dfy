/**
 * The payment page's client logic: the countdown to the payment deadline,
 * the check on a payment-proof file before it is uploaded, the upload
 * itself, and the poll that waits for the booking to be confirmed after a
 * gateway payment.
 *
 * Timers and `fetch` are replaced by explicit inputs: the countdown reads
 * the deadline distance seen at each tick, the upload and the poll read the
 * server's replies from a sequence.
 */
module PaymentPage {
  import opened Strings
  import opened Wrappers

  const MsPerHour := 1000 * 60 * 60
  const MsPerMinute := 1000 * 60
  const MsPerSecond := 1000

  /** What one tick of the countdown shows. */
  datatype TimeLeft = Expired | Remaining(hours: nat, minutes: nat, seconds: nat)

  /** One tick: `distance` is the deadline minus the current time, in
      milliseconds. Only a negative distance is expired. */
  function Tick(distance: int): (t: TimeLeft)
    ensures t.Expired? <==> distance < 0
    ensures t.Remaining? ==> t.minutes < 60 && t.seconds < 60
  {
    if distance < 0 then Expired
    else Remaining(distance / MsPerHour, (distance % MsPerHour) / MsPerMinute, (distance % MsPerMinute) / MsPerSecond)
  }

  /** The shown hours, minutes and seconds add up to the distance rounded
      down to a whole second. */
  lemma TickReconstructs(distance: int)
    requires distance >= 0
    ensures var t := Tick(distance);
      var total := t.hours * 3600000 + t.minutes * 60000 + t.seconds * 1000;
      total <= distance < total + 1000
  {
    var h := distance / 3600000;
    var r := distance % 3600000;
    var m := r / 60000;
    var r2 := r % 60000;
    assert distance == h * 3600000 + r;
    assert r == m * 60000 + r2;
    assert distance % 60000 == r2 by {
      assert distance == (h * 60 + m) * 60000 + r2;
    }
  }

  /** The text the countdown shows: "Expired" or `${h}h ${m}m ${s}s`. */
  function Text(t: TimeLeft): (s: string)
    ensures s == "Expired" <==> t.Expired?
    ensures t.Remaining? ==> |s| > 0 && IsDigit(s[0])
  {
    match t
    case Expired => "Expired"
    case Remaining(h, m, sec) =>
      var digits := NatToString(h);
      assert IsDigit((digits + "h")[0]);
      digits + "h " + NatToString(m) + "m " + NatToString(sec) + "s"
  }

  /** `n` followed by the unit letter `u` and what comes after. */
  function Field(n: nat, u: char, rest: string): string {
    NatToString(n) + [u] + rest
  }

  /** A field is read back from its digits: equal fields with the same
      unit letter have the same number and the same rest. */
  lemma FieldInjective(n1: nat, rest1: string, n2: nat, rest2: string, u: char)
    requires !IsDigit(u)
    requires Field(n1, u, rest1) == Field(n2, u, rest2)
    ensures n1 == n2 && rest1 == rest2
  {
    DigitsThenSeparator(NatToString(n1), rest1, NatToString(n2), rest2, u);
    NatToStringInjective(n1, n2);
  }

  /** `${h}h ${m}m ${s}s` as three fields separated by spaces. */
  lemma TextFields(h: nat, m: nat, sec: nat)
    ensures Text(Remaining(h, m, sec)) == Field(h, 'h', [' '] + Field(m, 'm', [' '] + Field(sec, 's', [])))
  {
    var x, y, z := NatToString(h), NatToString(m), NatToString(sec);
    assert x + "h " + y + "m " + z + "s" == x + ['h'] + ([' '] + (y + ['m'] + ([' '] + (z + ['s'] + []))));
  }

  /** The countdown text determines the time it shows: two remaining times
      with the same text have the same hours, minutes and seconds. */
  lemma TextInjective(t1: TimeLeft, t2: TimeLeft)
    requires Text(t1) == Text(t2)
    ensures t1 == t2
  {
    if t1.Remaining? && t2.Remaining? {
      TextFields(t1.hours, t1.minutes, t1.seconds);
      TextFields(t2.hours, t2.minutes, t2.seconds);
      var tail1 := Field(t1.seconds, 's', []);
      var tail2 := Field(t2.seconds, 's', []);
      FieldInjective(t1.hours, [' '] + Field(t1.minutes, 'm', [' '] + tail1),
                     t2.hours, [' '] + Field(t2.minutes, 'm', [' '] + tail2), 'h');
      var mid1, mid2 := Field(t1.minutes, 'm', [' '] + tail1), Field(t2.minutes, 'm', [' '] + tail2);
      assert mid1 == ([' '] + mid1)[1..] && mid2 == ([' '] + mid2)[1..];
      FieldInjective(t1.minutes, [' '] + tail1, t2.minutes, [' '] + tail2, 'm');
      assert tail1 == ([' '] + tail1)[1..] && tail2 == ([' '] + tail2)[1..];
      FieldInjective(t1.seconds, [], t2.seconds, [], 's');
    }
  }

  /** What the countdown has done after a run of ticks. */
  datatype Countdown = Countdown(shown: seq<string>, isExpired: bool)

  /** The interval timer over the distances it would read at each tick: it
      shows each tick's text and clears itself at the first negative one. */
  function Run(distances: seq<int>): (c: Countdown)
    ensures c.isExpired <==> exists i :: 0 <= i < |distances| && distances[i] < 0
    ensures |c.shown| <= |distances|
    ensures c.isExpired ==>
      (|c.shown| > 0 && c.shown[|c.shown| - 1] == "Expired" && distances[|c.shown| - 1] < 0
       && forall i :: 0 <= i < |c.shown| - 1 ==> distances[i] >= 0 && c.shown[i] == Text(Tick(distances[i])))
    ensures !c.isExpired ==>
      (|c.shown| == |distances| && forall i :: 0 <= i < |c.shown| ==> c.shown[i] == Text(Tick(distances[i])))
    decreases |distances|
  {
    if |distances| == 0 then Countdown([], false)
    else if distances[0] < 0 then Countdown(["Expired"], true)
    else
      var rest := Run(distances[1..]);
      Countdown([Text(Tick(distances[0]))] + rest.shown, rest.isExpired)
  }

  /** Ticks after expiry change nothing: the timer is already cleared. */
  lemma {:induction false} RunStopsAtExpiry(distances: seq<int>, later: seq<int>)
    requires Run(distances).isExpired
    ensures Run(distances + later) == Run(distances)
    decreases |distances|
  {
    if distances[0] >= 0 {
      assert (distances + later)[1..] == distances[1..] + later;
      RunStopsAtExpiry(distances[1..], later);
    }
  }

  // ---- payment-proof file check ----

  const MaxProofBytes := 1024 * 1024
  const MsgBadType := "Hanya file JPG/PNG yang diperbolehkan"
  const MsgTooLarge := "Maksimal ukuran file 1MB"

  /** `/image\/(jpeg|jpg|png)/` matched anywhere in the MIME type. */
  predicate AllowedType(mimeType: string) {
    Contains(mimeType, "image/jpeg") || Contains(mimeType, "image/jpg") || Contains(mimeType, "image/png")
  }

  datatype FileCheck = Accepted | Rejected(message: string)

  function ValidateFile(mimeType: string, size: nat): (r: FileCheck)
    ensures r.Accepted? <==> AllowedType(mimeType) && size <= MaxProofBytes
    // the type is checked first: a wrong type is reported whatever the size
    ensures !AllowedType(mimeType) ==> r == Rejected(MsgBadType)
    ensures AllowedType(mimeType) && size > MaxProofBytes ==> r == Rejected(MsgTooLarge)
  {
    if !AllowedType(mimeType) then Rejected(MsgBadType)
    else if size > MaxProofBytes then Rejected(MsgTooLarge)
    else Accepted
  }

  /** The size limit is inclusive and the type match is unanchored. */
  lemma ValidateFileEdges()
    ensures ValidateFile("image/png", 1048576) == Accepted
    ensures ValidateFile("image/png", 1048577) == Rejected(MsgTooLarge)
    ensures ValidateFile("application/pdf", 1048577) == Rejected(MsgBadType)
    ensures ValidateFile("image/pngx", 10) == Accepted
  {
    ContainsAt("image/png", "image/png", 0);
    ContainsAt("image/pngx", "image/png", 0);
    assert !AllowedType("application/pdf") by {
      NoImagePrefixInPdf();
    }
  }

  /** "application/pdf" holds none of the three image types. */
  lemma NoImagePrefixInPdf()
    ensures !Contains("application/pdf", "image/jpeg")
    ensures !Contains("application/pdf", "image/jpg")
    ensures !Contains("application/pdf", "image/png")
  {
    ShortOrNoI("application/pdf", "image/jpeg");
    ShortOrNoI("application/pdf", "image/jpg");
    ShortOrNoI("application/pdf", "image/png");
  }

  /** A string with no 'i' followed by 'm' cannot contain a pattern that
      starts "im". */
  lemma {:induction false} ShortOrNoI(s: string, sub: string)
    requires |sub| >= 2 && sub[0] == 'i' && sub[1] == 'm'
    requires forall k :: 0 <= k < |s| - 1 ==> !(s[k] == 'i' && s[k + 1] == 'm')
    ensures !Contains(s, sub)
    decreases |s|
  {
    if |s| > 0 {
      ShortOrNoI(s[1..], sub);
      if |s| >= 2 {
        assert !(s[0] == 'i' && s[1] == 'm');
      }
      assert !StartsWith(s[1..], sub[1..]) || s[0] != 'i';
    }
  }

  // ---- manual upload ----

  /** The server's answer to the upload request. */
  datatype UploadReply =
    | UploadOk
    | UploadError(error: string)   // a non-2xx answer with its `error` field ("" if absent)
    | UploadThrew(message: string) // the request itself failed

  /** What follows choosing a file: whether the upload request went out,
      the error toast if any, and whether the booking was fetched again. */
  datatype UploadResult = UploadResult(sent: bool, error: Option<string>, refetched: bool)

  /** `handleManualUpload(file)`: nothing is sent for a file the check refuses;
      otherwise the reply decides between an error toast and a refetch. */
  function ManualUpload(mimeType: string, size: nat, reply: UploadReply): (r: UploadResult)
    ensures r.sent <==> ValidateFile(mimeType, size).Accepted?
    ensures !r.sent ==> r.error == Some(ValidateFile(mimeType, size).message) && !r.refetched
    ensures r.refetched <==> r.sent && reply.UploadOk?
    ensures r.error.None? <==> r.refetched
    ensures r.sent && reply.UploadError? ==>
      r.error == Some(if reply.error != "" then reply.error else "Upload failed")
    ensures r.sent && reply.UploadThrew? ==> r.error == Some(reply.message)
  {
    match ValidateFile(mimeType, size)
    case Rejected(msg) => UploadResult(false, Some(msg), false)
    case Accepted =>
      match reply
      case UploadOk => UploadResult(true, None, true)
      case UploadError(e) => UploadResult(true, Some(if e != "" then e else "Upload failed"), false)
      case UploadThrew(m) => UploadResult(true, Some(m), false)
  }

  /** A refused file never reaches the server: the outcome is the same
      whatever the server would have answered, and nothing is refetched. */
  lemma RefusedFileIgnoresReply(mimeType: string, size: nat, reply1: UploadReply, reply2: UploadReply)
    requires ValidateFile(mimeType, size).Rejected?
    ensures ManualUpload(mimeType, size, reply1) == ManualUpload(mimeType, size, reply2)
    ensures !ManualUpload(mimeType, size, reply1).refetched
  {
  }

  /** For a file the check accepts, the page shows no error exactly when the
      server accepted the upload; any other reply shows a message. */
  lemma AcceptedFileErrorIffServerRefuses(mimeType: string, size: nat, reply: UploadReply)
    requires ValidateFile(mimeType, size).Accepted?
    ensures ManualUpload(mimeType, size, reply).error.None? <==> reply.UploadOk?
    ensures reply.UploadError? ==> ManualUpload(mimeType, size, reply).error.value != ""
  {
  }

  // ---- confirmation poll ----

  const MaxAttempts := 10
  const PollIntervalMs := 2000

  /** One poll's outcome as `pollStatus` sees it. */
  datatype PollReply = NotOk | Threw | BookingStatus(status: string)

  /** `pollStatus()` returns true only for a confirmed or completed booking. */
  predicate Confirms(reply: PollReply) {
    reply.BookingStatus? && (reply.status == "CONFIRMED" || reply.status == "COMPLETED")
  }

  /** `handlePaymentSuccess()`. `replies[i]` is what the i-th poll would
      receive. Returns how many polls ran, whether one confirmed, how long the
      loop slept, and whether the fallback refetch runs. */
  method HandlePaymentSuccess(replies: seq<PollReply>)
    returns (polls: nat, confirmed: bool, sleptMs: nat, refetch: bool)
    requires |replies| >= MaxAttempts
    ensures 1 <= polls <= MaxAttempts
    ensures confirmed <==> exists i :: 0 <= i < MaxAttempts && Confirms(replies[i])
    // the loop stops at the first confirming reply
    ensures confirmed ==> Confirms(replies[polls - 1])
    ensures forall i :: 0 <= i < polls - 1 ==> !Confirms(replies[i])
    ensures !confirmed ==> polls == MaxAttempts
    // a 2-second pause follows every unconfirmed poll
    ensures sleptMs == PollIntervalMs * (if confirmed then polls - 1 else polls)
    ensures refetch <==> !confirmed
  {
    var attempts := 0;
    polls := 0;
    confirmed := false;
    sleptMs := 0;
    while attempts < MaxAttempts
      invariant 0 <= attempts <= MaxAttempts
      invariant polls == attempts && !confirmed
      invariant forall i :: 0 <= i < attempts ==> !Confirms(replies[i])
      invariant sleptMs == PollIntervalMs * attempts
      decreases MaxAttempts - attempts
    {
      polls := polls + 1;
      var isConfirmed := Confirms(replies[attempts]);
      if isConfirmed {
        confirmed := true;
        break;
      }
      sleptMs := sleptMs + PollIntervalMs;
      attempts := attempts + 1;
    }
    refetch := attempts >= MaxAttempts;
  }
}
