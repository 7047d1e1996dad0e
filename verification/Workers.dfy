/**
  The worker threads' scoring loops over what their sockets deliver, and the verdicts they reach
  in terms of the data alone.
 */
module Workers {
  import opened Bytes

  datatype MessageSpec = MessageSpec(payload: Bytes, stream: nat, ppid: nat, sizeBytes: nat, unordered: bool)

  /** One successful receive: a message, or a notification of the stack. */
  datatype Item = Notification | Data(payload: Bytes, stream: nat, ppid: nat)

  /** The receive that failed after all items were delivered. */
  datatype RecvEnd = Timeout | Errno(code: nat)

  datatype Reason =
    | TimedOutWaiting
    | System(code: nat)
    | UnexpectedPayload
    | UnexpectedStream
    | UnexpectedPpid
    | TooFewPeerAddresses
    | MissingMessages
    | MissingSockets
    | SkippedMessageDelivered
    | UnexpectedTrigger

  datatype Verdict = NetworkComplete | Failed(reason: Reason)

  function EndReason(end: RecvEnd): Reason {
    if end.Timeout? then TimedOutWaiting else System(end.code)
  }

  // ------------------------------------------------------------------- payloads

  /** The payload repeated up to the requested size; an empty one is filled with x. */
  function Materialized(m: MessageSpec): Bytes {
    if m.payload == [] then seq(m.sizeBytes, _ => 'x')
    else seq(if m.sizeBytes > |m.payload| then m.sizeBytes else |m.payload|,
             k requires 0 <= k => m.payload[k % |m.payload|])
  }

  method MaterializePayload(m: MessageSpec) returns (out: Bytes)
    ensures |out| == if m.sizeBytes > |m.payload| then m.sizeBytes else |m.payload|
    ensures forall k :: 0 <= k < |out| ==> out[k] == if m.payload == [] then 'x' else m.payload[k % |m.payload|]
    ensures out == Materialized(m)
  {
    var n := |m.payload|;
    if m.sizeBytes == 0 || m.sizeBytes <= n {
      return m.payload;
    }
    if m.payload == [] {
      return seq(m.sizeBytes, _ => 'x');
    }
    out := Repeat(m.payload, m.sizeBytes);
  }

  /** The filling loop. */
  method Repeat(payload: Bytes, size: nat) returns (out: Bytes)
    requires payload != []
    ensures |out| == size && forall k :: 0 <= k < size ==> out[k] == payload[k % |payload|]
  {
    var n := |payload|;
    out := [];
    ghost var rounds := 0;
    while |out| < size
      invariant |out| <= size && (|out| < size ==> |out| == rounds * n)
      invariant forall k :: 0 <= k < |out| ==> out[k] == payload[k % n]
    {
      var remaining := size - |out|;
      ghost var before := |out|;
      if remaining >= n {
        out := out + payload;
      } else {
        out := out + payload[..remaining];
      }
      forall k | before <= k < |out| ensures out[k] == payload[k % n] {
        ModIs(rounds, n, k - before);
      }
      rounds := rounds + 1;
    }
  }

  lemma ModIs(q: nat, n: nat, r: nat)
    requires r < n
    ensures (q * n + r) % n == r
  {
    var a := q * n + r;
    var q', r' := a / n, a % n;
    assert q' * n + r' == a;
    if q' < q {
      MulAtLeast(q - q', n);
    } else if q' > q {
      MulAtLeast(q' - q, n);
    }
  }

  lemma MulAtLeast(d: nat, n: nat)
    requires d > 0
    ensures d * n >= n
  {
  }

  // ------------------------------------------------------------------- the receive worker

  /** The messages of a trace, notifications erased. */
  function DataOf(trace: seq<Item>): (r: seq<Item>)
    ensures forall i :: 0 <= i < |r| ==> r[i].Data?
  {
    if trace == [] then []
    else (if trace[0].Data? then [trace[0]] else []) + DataOf(trace[1..])
  }

  predicate Matches(expected: MessageSpec, d: Item) {
    d.Data? && Materialized(expected) == d.payload && expected.stream == d.stream && expected.ppid == d.ppid
  }

  /** The first check a message fails. */
  function MismatchReason(expected: MessageSpec, d: Item): Reason
    requires d.Data?
  {
    if Materialized(expected) != d.payload then UnexpectedPayload
    else if expected.stream != d.stream then UnexpectedStream
    else UnexpectedPpid
  }

  /** How many messages match before the first that does not. */
  function MatchCount(expected: seq<MessageSpec>, data: seq<Item>): (m: nat)
    ensures m <= |expected| && m <= |data|
  {
    if expected == [] || data == [] || !Matches(expected[0], data[0]) then 0
    else 1 + MatchCount(expected[1..], data[1..])
  }

  /** The count is the length of the longest matching prefix. */
  lemma {:induction false} MatchCountMeans(expected: seq<MessageSpec>, data: seq<Item>)
    ensures var m := MatchCount(expected, data);
      && (forall i :: 0 <= i < m ==> Matches(expected[i], data[i]))
      && (m < |expected| && m < |data| ==> !Matches(expected[m], data[m]))
  {
    if expected != [] && data != [] && Matches(expected[0], data[0]) {
      MatchCountMeans(expected[1..], data[1..]);
      var m := MatchCount(expected, data);
      assert forall i :: 0 < i < m ==> expected[i] == expected[1..][i - 1] && data[i] == data[1..][i - 1];
    }
  }

  /** The verdict as a function of the data: the address check comes right after the first match. */
  function ReceiveVerdict(expected: seq<MessageSpec>, peersWanted: nat, peers: nat, data: seq<Item>,
    end: RecvEnd): Verdict
    requires forall i :: 0 <= i < |data| ==> data[i].Data?
  {
    var m := MatchCount(expected, data);
    if m > 0 && peers < peersWanted then Failed(TooFewPeerAddresses)
    else if m == |expected| then NetworkComplete
    else if m == |data| then Failed(EndReason(end))
    else Failed(MismatchReason(expected[m], data[m]))
  }

  /** The matching prefix, recognized when it is maximal. */
  lemma MatchCountIs(expected: seq<MessageSpec>, data: seq<Item>, m: nat)
    requires m <= |expected| && m <= |data|
    requires forall i :: 0 <= i < m ==> Matches(expected[i], data[i])
    requires m < |expected| && m < |data| ==> !Matches(expected[m], data[m])
    ensures MatchCount(expected, data) == m
  {
    MatchCountMeans(expected, data);
  }

  /** The three checks on one message. */
  method Check(expected: MessageSpec, received: Item) returns (failure: Option<Reason>)
    requires received.Data?
    ensures failure == if Matches(expected, received) then None else Some(MismatchReason(expected, received))
  {
    var payload := MaterializePayload(expected);
    if payload != received.payload {
      return Some(UnexpectedPayload);
    }
    if expected.stream != received.stream {
      return Some(UnexpectedStream);
    }
    if expected.ppid != received.ppid {
      return Some(UnexpectedPpid);
    }
    return None;
  }

  lemma DataSplit(seen: seq<Item>, it: Item, later: seq<Item>)
    ensures seen + ([it] + later) == seen + [it] + later
    ensures (seen + [it] + later)[|seen|] == it
  {
  }

  /** The data up to the first that is missing or does not match. */
  ghost predicate AllMatch(expected: seq<MessageSpec>, seen: seq<Item>) {
    |seen| <= |expected| && forall k :: 0 <= k < |seen| ==> Matches(expected[k], seen[k])
  }

  lemma AllMatchSnoc(expected: seq<MessageSpec>, seen: seq<Item>, it: Item)
    requires AllMatch(expected, seen) && |seen| < |expected| && Matches(expected[|seen|], it)
    ensures AllMatch(expected, seen + [it])
  {
  }

  /** The verdict once the matching data has come to its end. */
  lemma VerdictAt(expected: seq<MessageSpec>, seen: seq<Item>, later: seq<Item>)
    requires AllMatch(expected, seen)
    requires |seen| < |expected| && later != [] ==> !Matches(expected[|seen|], later[0])
    ensures MatchCount(expected, seen + later) == |seen|
  {
    MatchCountIs(expected, seen + later, |seen|);
  }

  method RunReceiveWorker(expected: seq<MessageSpec>, peersWanted: nat, peers: nat, trace: seq<Item>, end: RecvEnd)
    returns (verdict: Verdict)
    ensures verdict == ReceiveVerdict(expected, peersWanted, peers, DataOf(trace), end)
  {
    var matched := 0;
    var checkedPeers := false;
    var rest := trace;
    ghost var data := DataOf(trace);
    ghost var seen: seq<Item> := [];
    assert data == seen + data;
    while matched < |expected|
      invariant |seen| == matched && data == seen + DataOf(rest) && AllMatch(expected, seen)
      invariant checkedPeers <==> matched > 0 && peersWanted > 0
      invariant matched > 0 ==> peers >= peersWanted
      decreases |rest|
    {
      if rest == [] {
        VerdictAt(expected, seen, []);
        return Failed(if end.Timeout? then TimedOutWaiting else System(end.code));
      }
      var received := rest[0];
      rest := rest[1..];
      if received.Notification? {
        assert [] + DataOf(rest) == DataOf(rest);
        continue;
      }
      ghost var later := DataOf(rest);
      DataSplit(seen, received, later);
      var failure := Check(expected[matched], received);
      if failure.Some? {
        VerdictAt(expected, seen, [received] + later);
        return Failed(failure.value);
      }
      AllMatchSnoc(expected, seen, received);
      seen := seen + [received];
      matched := matched + 1;
      if !checkedPeers && peersWanted > 0 {
        checkedPeers := true;
        if peers < peersWanted {
          OneMatch(expected, data);
          return Failed(TooFewPeerAddresses);
        }
      }
    }
    VerdictAt(expected, seen, DataOf(rest));
    return NetworkComplete;
  }

  lemma OneMatch(expected: seq<MessageSpec>, data: seq<Item>)
    requires expected != [] && data != [] && Matches(expected[0], data[0])
    ensures MatchCount(expected, data) > 0
  {
  }

  /** Success is exactly: the data starts with the expected messages, and, once one has arrived, enough
      peer addresses are known. */
  lemma ReceiveSucceedsIff(expected: seq<MessageSpec>, peersWanted: nat, peers: nat, trace: seq<Item>, end: RecvEnd)
    ensures var data := DataOf(trace);
      ReceiveVerdict(expected, peersWanted, peers, data, end) == NetworkComplete
      <==> && |expected| <= |data|
           && (forall i :: 0 <= i < |expected| ==> Matches(expected[i], data[i]))
           && (expected == [] || peers >= peersWanted)
  {
    MatchCountMeans(expected, DataOf(trace));
  }

  // ------------------------------------------------------------------- the multi-target worker

  datatype Source = Source(trace: seq<Item>, end: RecvEnd)

  /** The verdict on one socket, or none when its first message matches. */
  function TargetFailure(expected: MessageSpec, s: Source): Option<Reason> {
    var data := DataOf(s.trace);
    if data == [] then Some(EndReason(s.end))
    else if Matches(expected, data[0]) then None
    else Some(MismatchReason(expected, data[0]))
  }

  /** The sockets are read in order; the first failure decides. */
  predicate MultiVerdictIs(expected: seq<MessageSpec>, sources: seq<Source>, verdict: Verdict) {
    if |sources| != |expected| then verdict == Failed(MissingSockets)
    else if verdict == NetworkComplete then forall i :: 0 <= i < |expected| ==>
      TargetFailure(expected[i], sources[i]) == None
    else exists i :: 0 <= i < |expected| && TargetFailure(expected[i], sources[i]) == Some(verdict.reason)
           && forall j :: 0 <= j < i ==> TargetFailure(expected[j], sources[j]) == None
  }

  method ReadTarget(expected: MessageSpec, s: Source) returns (failure: Option<Reason>)
    ensures failure == TargetFailure(expected, s)
  {
    var i := 0;
    assert s.trace[0..] == s.trace;
    while true
      invariant 0 <= i <= |s.trace| && DataOf(s.trace[i..]) == DataOf(s.trace)
      decreases |s.trace| - i
    {
      if i == |s.trace| {
        return Some(if s.end.Timeout? then TimedOutWaiting else System(s.end.code));
      }
      var received := s.trace[i];
      assert s.trace[i..][1..] == s.trace[i + 1..];
      i := i + 1;
      if received.Notification? {
        continue;
      }
      failure := Check(expected, received);
      return;
    }
  }

  method RunMultiTargetWorker(expected: seq<MessageSpec>, sources: seq<Source>) returns (verdict: Verdict)
    ensures MultiVerdictIs(expected, sources, verdict)
  {
    if |sources| != |expected| {
      return Failed(MissingSockets);
    }
    for i := 0 to |expected|
      invariant forall j :: 0 <= j < i ==> TargetFailure(expected[j], sources[j]) == None
    {
      var failure := ReadTarget(expected[i], sources[i]);
      if failure.Some? {
        return Failed(failure.value);
      }
    }
    return NetworkComplete;
  }

  /** The first message of a trace, after any number of notifications, is the expected one. */
  predicate FirstIs(expected: MessageSpec, trace: seq<Item>) {
    exists k :: 0 <= k < |trace| && Matches(expected, trace[k]) && forall j :: 0 <= j < k ==> trace[j].Notification?
  }

  lemma {:induction false} FirstData(expected: MessageSpec, trace: seq<Item>)
    ensures DataOf(trace) != [] && Matches(expected, DataOf(trace)[0]) <==> FirstIs(expected, trace)
  {
    if trace != [] {
      var rest := trace[1..];
      FirstData(expected, rest);
      if trace[0].Notification? {
        assert DataOf(trace) == DataOf(rest);
        if k :| 0 <= k < |rest| && Matches(expected, rest[k]) && forall j :: 0 <= j < k ==> rest[j].Notification? {
          assert Matches(expected, trace[k + 1]) && forall j :: 0 < j <= k ==> trace[j] == rest[j - 1];
        }
        if k :| 0 <= k < |trace| && Matches(expected, trace[k]) && forall j :: 0 <= j < k ==> trace[j].Notification? {
          assert Matches(expected, rest[k - 1]) && forall j :: 0 <= j < k - 1 ==> rest[j] == trace[j + 1];
        }
      } else {
        assert DataOf(trace)[0] == trace[0];
      }
    }
  }

  /** The verdict is determined, and it is success exactly when there is a socket for every message and
      what arrives first on each, notifications apart, is the message expected there. */
  lemma MultiTargetSucceedsIff(expected: seq<MessageSpec>, sources: seq<Source>, verdict: Verdict, other: Verdict)
    requires MultiVerdictIs(expected, sources, verdict) && MultiVerdictIs(expected, sources, other)
    ensures verdict == other
    ensures verdict == NetworkComplete
       <==> |sources| == |expected| && forall i :: 0 <= i < |expected| ==> FirstIs(expected[i], sources[i].trace)
  {
    if |sources| == |expected| {
      forall i | 0 <= i < |expected| ensures TargetFailure(expected[i], sources[i]) == None <==>
        FirstIs(expected[i], sources[i].trace) {
        FirstData(expected[i], sources[i].trace);
      }
    }
  }

  // ------------------------------------------------------------------- the partial-reliability worker

  predicate Saw(data: seq<Item>, payload: Bytes) {
    exists i :: 0 <= i < |data| && data[i].Data? && data[i].payload == payload
  }

  predicate SawOther(data: seq<Item>, skipped: Bytes, final: Bytes) {
    exists i :: 0 <= i < |data| && data[i].Data? && data[i].payload != skipped && data[i].payload != final
  }

  lemma SawSnoc(data: seq<Item>, it: Item, payload: Bytes)
    requires it.Data?
    ensures Saw(data + [it], payload) <==> Saw(data, payload) || it.payload == payload
  {
    var all := data + [it];
    assert all[|data|] == it && forall i :: 0 <= i < |data| ==> all[i] == data[i];
  }

  /** The verdict as a function of the data: a foreign payload decides at once, otherwise how the
      receive ended and which of the two payloads were among the data. A payload equal to the skipped
      one is never taken for the final one. */
  function PrVerdict(expected: seq<MessageSpec>, data: seq<Item>, end: RecvEnd): Verdict {
    if |expected| < 2 then Failed(MissingMessages)
    else
      var skipped, final := Materialized(expected[0]), Materialized(expected[|expected| - 1]);
      if SawOther(data, skipped, final) then Failed(UnexpectedPayload)
      else if end.Errno? || skipped == final || !Saw(data, final) then Failed(EndReason(end))
      else if Saw(data, skipped) then Failed(SkippedMessageDelivered)
      else NetworkComplete
  }

  method RunPrReceiveWorker(expected: seq<MessageSpec>, trace: seq<Item>, end: RecvEnd) returns (verdict: Verdict)
    ensures verdict == PrVerdict(expected, DataOf(trace), end)
  {
    if |expected| < 2 {
      return Failed(MissingMessages);
    }
    var skipped := MaterializePayload(expected[0]);
    var final := MaterializePayload(expected[|expected| - 1]);
    verdict := PrLoop(skipped, final, trace, end);
  }

  method PrLoop(skipped: Bytes, final: Bytes, trace: seq<Item>, end: RecvEnd) returns (verdict: Verdict)
    ensures verdict ==
      var data := DataOf(trace);
      if SawOther(data, skipped, final) then Failed(UnexpectedPayload)
      else if end.Errno? || skipped == final || !Saw(data, final) then Failed(EndReason(end))
      else if Saw(data, skipped) then Failed(SkippedMessageDelivered)
      else NetworkComplete
  {
    var sawSkipped, sawFinal := false, false;
    var rest := trace;
    ghost var data := DataOf(trace);
    ghost var seen: seq<Item> := [];
    assert data == seen + data;
    while true
      invariant data == seen + DataOf(rest)
      invariant !SawOther(seen, skipped, final)
      invariant sawSkipped <==> Saw(seen, skipped)
      invariant sawFinal <==> skipped != final && Saw(seen, final)
      decreases |rest|
    {
      if rest == [] {
        assert data == seen;
        if end.Timeout? && sawFinal {
          if sawSkipped {
            return Failed(SkippedMessageDelivered);
          }
          return NetworkComplete;
        }
        return Failed(if end.Timeout? then TimedOutWaiting else System(end.code));
      }
      var received := rest[0];
      rest := rest[1..];
      if received.Notification? {
        assert [] + DataOf(rest) == DataOf(rest);
        continue;
      }
      DataSplit(seen, received, DataOf(rest));
      if received.payload != skipped && received.payload != final {
        assert data[|seen|] == received;
        return Failed(UnexpectedPayload);
      }
      SawSnoc(seen, received, skipped);
      SawSnoc(seen, received, final);
      seen := seen + [received];
      if received.payload == skipped {
        sawSkipped := true;
        continue;
      }
      sawFinal := true;
    }
  }

  /** Success is exactly: two distinct payloads are expected, and the final one alone arrived, at least
      once, before a timeout. */
  lemma PrSucceedsIff(expected: seq<MessageSpec>, trace: seq<Item>, end: RecvEnd)
    ensures var data := DataOf(trace);
      PrVerdict(expected, data, end) == NetworkComplete
      <==> && |expected| >= 2 && Materialized(expected[0]) != Materialized(expected[|expected| - 1])
           && end.Timeout? && data != []
           && forall i :: 0 <= i < |data| ==> data[i].payload == Materialized(expected[|expected| - 1])
  {
    var data := DataOf(trace);
    if |expected| >= 2 && data != [] {
      assert data[0].Data?;
    }
  }

  // ------------------------------------------------------------------- the trigger worker

  /** What the server puts on the wire for one of its messages. */
  datatype Sent = Sent(payload: Bytes, stream: nat, ppid: nat, unordered: bool)

  function SentFor(m: MessageSpec): Sent {
    Sent(Materialized(m), m.stream, m.ppid, m.unordered)
  }

  /** A byte string as a C string: cut at its first zero byte. */
  function CString(s: Bytes): Bytes {
    if s == [] || s[0] == 0 as char then [] else [s[0]] + CString(s[1..])
  }

  /** The send results: none, or the index and error of the first that failed. */
  datatype SendFault = NoFault | FaultAt(at: nat, code: nat)

  predicate TriggerOk(trigger: Bytes, data: seq<Item>) {
    data != [] && data[0].Data? && (trigger == [] || trigger == CString(data[0].payload))
  }

  method RunSendAfterTriggerWorker(trigger: Bytes, messages: seq<MessageSpec>, trace: seq<Item>, end: RecvEnd,
    fault: SendFault)
    returns (verdict: Verdict, sent: seq<Sent>)
    ensures var data := DataOf(trace);
      && (data == [] ==> verdict == Failed(EndReason(end)) && sent == [])
      && (data != [] && !TriggerOk(trigger, data) ==> verdict == Failed(UnexpectedTrigger) && sent == [])
      && (TriggerOk(trigger, data) && fault.FaultAt? && fault.at < |messages| ==>
           verdict == Failed(System(fault.code)) && |sent| == fault.at)
      && (TriggerOk(trigger, data) && (fault.FaultAt? ==> fault.at >= |messages|) ==>
           verdict == NetworkComplete && |sent| == |messages|)
    ensures |sent| <= |messages| && forall i :: 0 <= i < |sent| ==> sent[i] == SentFor(messages[i])
  {
    sent := [];
    var rest := trace;
    while true
      invariant DataOf(rest) == DataOf(trace)
      decreases |rest|
    {
      if rest == [] {
        return Failed(if end.Timeout? then TimedOutWaiting else System(end.code)), sent;
      }
      var received := rest[0];
      rest := rest[1..];
      if received.Notification? {
        assert [] + DataOf(rest) == DataOf(rest);
        continue;
      }
      if trigger != [] && trigger != CString(received.payload) {
        return Failed(UnexpectedTrigger), sent;
      }
      break;
    }
    for i := 0 to |messages|
      invariant |sent| == i && forall j :: 0 <= j < i ==> sent[j] == SentFor(messages[j])
      invariant fault.FaultAt? ==> fault.at >= i
      invariant TriggerOk(trigger, DataOf(trace))
    {
      var payload := MaterializePayload(messages[i]);
      if fault.FaultAt? && fault.at == i {
        return Failed(System(fault.code)), sent;
      }
      sent := sent + [Sent(payload, messages[i].stream, messages[i].ppid, messages[i].unordered)];
    }
    return NetworkComplete, sent;
  }

  /** Two parties given the same contract agree on its messages: of all traces with as many messages as
      the contract, exactly the one that delivers the contract's own messages succeeds. */
  lemma FaithfulPeerSucceeds(expected: seq<MessageSpec>, trace: seq<Item>, end: RecvEnd)
    requires |DataOf(trace)| == |expected|
    ensures ReceiveVerdict(expected, 0, 0, DataOf(trace), end) == NetworkComplete
       <==> DataOf(trace) == ContractData(expected)
  {
    ReceiveSucceedsIff(expected, 0, 0, trace, end);
    var data := DataOf(trace);
    var wanted := ContractData(expected);
    assert forall i :: 0 <= i < |expected| ==> (Matches(expected[i], data[i]) <==> data[i] == wanted[i]);
  }

  function ContractData(expected: seq<MessageSpec>): (r: seq<Item>)
    ensures |r| == |expected|
    ensures forall i :: 0 <= i < |r| ==>
      r[i] == Data(SentFor(expected[i]).payload, expected[i].stream, expected[i].ppid)
  {
    seq(|expected|, i requires 0 <= i < |expected| =>
      Data(Materialized(expected[i]), expected[i].stream, expected[i].ppid))
  }

  // ------------------------------------------------------------------- verdicts, spelled out

  /** The bytes of a message: its payload again and again, up to the wanted size, or that many times the letter x. */
  lemma MaterializedSpelled(m: MessageSpec)
    ensures |Materialized(m)| == if m.sizeBytes > |m.payload| then m.sizeBytes else |m.payload|
    ensures forall k :: 0 <= k < |Materialized(m)| ==>
      Materialized(m)[k] == if m.payload == [] then 120 as char else m.payload[k % |m.payload|]
  {
  }

  /** Notifications are passed over, and nothing else is. */
  lemma DataSpelled(it: Item, later: seq<Item>)
    ensures DataOf([]) == []
    ensures DataOf([it] + later) == if it == Notification then DataOf(later) else [it] + DataOf(later)
  {
    assert ([it] + later)[1..] == later;
  }

  /** The item that the contract's message i stands for. */
  function Wanted(m: MessageSpec): Item {
    Data(Materialized(m), m.stream, m.ppid)
  }

  /** Why a wait ends without a message. */
  function Silence(end: RecvEnd): Verdict {
    match end
    case Timeout => Failed(TimedOutWaiting)
    case Errno(code) => Failed(System(code))
  }

  /** What is wrong with a message: its payload, then its stream, then its identifier. */
  function Fault(m: MessageSpec, d: Item): Verdict
    requires d.Data? && d != Wanted(m)
  {
    if d.payload != Wanted(m).payload then Failed(UnexpectedPayload)
    else if d.stream != m.stream then Failed(UnexpectedStream)
    else Failed(UnexpectedPpid)
  }

  /** The verdict of the receive worker when exactly the first n messages are as wanted. */
  lemma ReceiveSpelled(expected: seq<MessageSpec>, peersWanted: nat, peers: nat, trace: seq<Item>, end: RecvEnd, n: nat)
    requires n <= |expected| && n <= |DataOf(trace)|
    requires forall i :: 0 <= i < n ==> DataOf(trace)[i] == Wanted(expected[i])
    requires n < |expected| && n < |DataOf(trace)| ==> DataOf(trace)[n] != Wanted(expected[n])
    ensures ReceiveVerdict(expected, peersWanted, peers, DataOf(trace), end) ==
            if n > 0 && peers < peersWanted then Failed(TooFewPeerAddresses)
            else if n == |expected| then NetworkComplete
            else if n == |DataOf(trace)| then Silence(end)
            else Fault(expected[n], DataOf(trace)[n])
  {
    MatchCountIs(expected, DataOf(trace), n);
  }

  /** The verdict of the multi-target worker when the first n sockets bring what is wanted. */
  lemma MultiTargetSpelled(expected: seq<MessageSpec>, sources: seq<Source>, verdict: Verdict, n: nat)
    requires MultiVerdictIs(expected, sources, verdict)
    requires n <= |expected| && n <= |sources|
    requires forall i :: 0 <= i < n ==>
      DataOf(sources[i].trace) != [] && DataOf(sources[i].trace)[0] == Wanted(expected[i])
    requires n < |expected| && n < |sources| && DataOf(sources[n].trace) != [] ==>
      DataOf(sources[n].trace)[0] != Wanted(expected[n])
    ensures verdict ==
            if |sources| != |expected| then Failed(MissingSockets)
            else if n == |expected| then NetworkComplete
            else if DataOf(sources[n].trace) == [] then Silence(sources[n].end)
            else Fault(expected[n], DataOf(sources[n].trace)[0])
  {
    if |sources| == |expected| {
      forall i | 0 <= i < n ensures TargetFailure(expected[i], sources[i]) == None {
        assert Matches(expected[i], DataOf(sources[i].trace)[0]);
      }
      if n < |expected| {
        assert TargetFailure(expected[n], sources[n]).Some?;
      }
    }
  }

  /** The verdict of the partial-reliability worker, from what arrived. */
  lemma PrSpelled(expected: seq<MessageSpec>, trace: seq<Item>, end: RecvEnd)
    ensures |expected| < 2 ==> PrVerdict(expected, DataOf(trace), end) == Failed(MissingMessages)
    ensures |expected| >= 2 ==>
      var data, skipped, final := DataOf(trace), Materialized(expected[0]), Materialized(expected[|expected| - 1]);
      PrVerdict(expected, data, end) ==
        if exists i :: 0 <= i < |data| && data[i].payload != skipped && data[i].payload != final then
          Failed(UnexpectedPayload)
        else if end != Timeout || skipped == final || forall i :: 0 <= i < |data| ==> data[i].payload == skipped then
          Silence(end)
        else if exists i :: 0 <= i < |data| && data[i].payload == skipped then Failed(SkippedMessageDelivered)
        else NetworkComplete
  {
  }

  /** A byte string ends, for C, before its first zero byte. */
  lemma {:induction false} CStringSpelled(a: Bytes, b: Bytes)
    requires 0 as char !in a
    ensures CString(a) == a && CString(a + [0 as char] + b) == a
  {
    if a != [] {
      CStringSpelled(a[1..], b);
      assert (a + [0 as char] + b)[1..] == a[1..] + [0 as char] + b && [a[0]] + a[1..] == a;
    } else {
      assert (a + [0 as char] + b)[0] == 0 as char;
    }
  }

  lemma {:induction false} CStringWithin(s: Bytes)
    ensures 0 as char !in CString(s)
    ensures CString(s) == s || CString(s) + [0 as char] <= s
  {
    if s != [] && s[0] != 0 as char {
      CStringWithin(s[1..]);
      var t := CString(s[1..]);
      assert CString(s) == [s[0]] + t;
      if t == s[1..] {
        assert [s[0]] + s[1..] == s;
      } else {
        assert s[1..] == t + [0 as char] + s[1..][|t| + 1..];
        assert s == [s[0]] + t + [0 as char] + s[1..][|t| + 1..];
      }
    }
  }

  /** The trigger worker goes on when it is to take anything, or when the first message is the trigger, with or without
      a zero byte behind it. */
  lemma TriggerSpelled(trigger: Bytes, d: Item, later: seq<Item>)
    requires d.Data?
    ensures TriggerOk(trigger, [d] + later) <==>
      || trigger == []
      || (0 as char !in trigger && (d.payload == trigger || trigger + [0 as char] <= d.payload))
    ensures !TriggerOk(trigger, [])
  {
    CStringWithin(d.payload);
    if 0 as char !in trigger {
      CStringSpelled(trigger, []);
      if trigger + [0 as char] <= d.payload {
        CStringSpelled(trigger, d.payload[|trigger| + 1..]);
        assert d.payload == trigger + [0 as char] + d.payload[|trigger| + 1..];
      }
    }
  }

  /** What is sent for a message of the contract. */
  lemma SentSpelled(m: MessageSpec)
    ensures SentFor(m) == Sent(Wanted(m).payload, m.stream, m.ppid, m.unordered)
  {
  }
}
