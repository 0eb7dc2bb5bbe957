/**
 The device-collection loop of `get_roku_devices` in `src/roku.rs`, once the
 probe replies have arrived in some order. Each reply is either a failed
 request or a responder's address with the markup events of its device-info
 body (the XML tokenizer is outside the model; the text `read_text` returns
 for an element travels with its start event, taken as an uninterpreted string).
 */
module Discovery {
  import opened Wrappers

  /** A responder's socket address; the host is kept as its textual form. */
  datatype SocketAddr = SocketAddr(host: string, port: int)

  /** A markup event: an element start (with the element's text), anything else, or end of input. */
  datatype Event = Start(name: string, text: string) | Other | Eof

  /** The outcome of one device-info probe, in the order the stream yields it. */
  datatype ProbeOutcome = Failed | Replied(addr: SocketAddr, events: seq<Event>)

  /** `RokuDevice`: a discovered device's friendly name and address. */
  datatype RokuDevice = RokuDevice(name: string, addr: SocketAddr)

  const FriendlyNameTag: string := "friendly-device-name"

  predicate IsNameStart(e: Event)
  {
    e.Start? && e.name == FriendlyNameTag
  }

  /** An event that ends the scan of one reply. */
  predicate EndsScan(e: Event)
  {
    e.Eof? || IsNameStart(e)
  }

  /**
   The friendly name of one reply: the text of the first `friendly-device-name`
   start element, provided no end of input comes before it. Running out of
   events counts as end of input.
   */
  function FriendlyName(events: seq<Event>): Option<string>
  {
    if |events| == 0 then None
    else
      match events[0]
      case Eof => None
      case Other => FriendlyName(events[1..])
      case Start(name, text) =>
        if name == FriendlyNameTag then Some(text) else FriendlyName(events[1..])
  }

  /** The inner `loop` over `reader.read_event()`: stops at the name element or at `Eof`. */
  method ScanForName(events: seq<Event>) returns (name: Option<string>)
    ensures name == FriendlyName(events)
  {
    var i := 0;
    while true
      invariant 0 <= i <= |events|
      invariant FriendlyName(events[i..]) == FriendlyName(events)
      decreases |events| - i
    {
      if i == |events| {
        return None;
      }
      var e := events[i];
      if IsNameStart(e) {
        return Some(e.text);
      } else if e.Eof? {
        return None;
      }
      assert events[i..][1..] == events[i + 1..];
      i := i + 1;
    }
  }

  /** What one successful reply contributes: its device, if it names one. */
  function DeviceOf(addr: SocketAddr, events: seq<Event>): (ds: seq<RokuDevice>)
    ensures |ds| <= 1
    ensures |ds| == 1 <==> FriendlyName(events).Some?
    ensures |ds| == 1 ==> ds[0] == RokuDevice(FriendlyName(events).value, addr)
  {
    match FriendlyName(events)
    case None => []
    case Some(n) => [RokuDevice(n, addr)]
  }

  /** The index of the first failed outcome, or the length when none failed. */
  function FailurePoint(outcomes: seq<ProbeOutcome>): (k: nat)
    ensures k <= |outcomes|
  {
    if |outcomes| == 0 || outcomes[0].Failed? then 0 else 1 + FailurePoint(outcomes[1..])
  }

  /**
   The `while let Some(Ok(info))` fold: the devices of the replies before the
   first failure, in the order the replies were consumed.
   */
  function CollectDevices(outcomes: seq<ProbeOutcome>): seq<RokuDevice>
  {
    if |outcomes| == 0 then []
    else
      match outcomes[0]
      case Failed => []
      case Replied(addr, events) => DeviceOf(addr, events) + CollectDevices(outcomes[1..])
  }

  lemma ConcatAssociates<T>(a: seq<T>, b: seq<T>, c: seq<T>)
    ensures a + (b + c) == a + b + c
  {
  }

  /** One turn of the loop: a reply's device joins the list ahead of the rest. */
  lemma CollectStep(outcomes: seq<ProbeOutcome>, i: int, devices: seq<RokuDevice>)
    requires 0 <= i < |outcomes| && outcomes[i].Replied?
    requires devices + CollectDevices(outcomes[i..]) == CollectDevices(outcomes)
    ensures (devices + DeviceOf(outcomes[i].addr, outcomes[i].events)) + CollectDevices(outcomes[i + 1..])
      == CollectDevices(outcomes)
  {
    var tail := outcomes[i..];
    assert tail[1..] == outcomes[i + 1..];
    assert CollectDevices(tail) == DeviceOf(tail[0].addr, tail[0].events) + CollectDevices(tail[1..]);
    ConcatAssociates(devices, DeviceOf(outcomes[i].addr, outcomes[i].events), CollectDevices(outcomes[i + 1..]));
  }

  /** The collection loop itself, consuming outcomes until the first failure. */
  method Collect(outcomes: seq<ProbeOutcome>) returns (devices: seq<RokuDevice>)
    ensures devices == CollectDevices(outcomes)
  {
    devices := [];
    var i := 0;
    while i < |outcomes|
      invariant 0 <= i <= |outcomes|
      invariant devices + CollectDevices(outcomes[i..]) == CollectDevices(outcomes)
      decreases |outcomes| - i
    {
      if outcomes[i].Failed? {
        break;
      }
      var name := ScanForName(outcomes[i].events);
      CollectStep(outcomes, i, devices);
      if name.Some? {
        devices := devices + [RokuDevice(name.value, outcomes[i].addr)];
      } else {
        assert devices + [] == devices;
      }
      i := i + 1;
    }
    assert devices + [] == devices;
  }

  /**
   The name found is the text of the first `friendly-device-name` start
   element, with neither another such element nor an end of input before it;
   no name is found exactly when an end of input precedes every such element.
   */
  lemma {:induction false} FriendlyNameIsFirstNameElement(events: seq<Event>)
    ensures FriendlyName(events).Some? ==>
      exists i :: 0 <= i < |events| && IsNameStart(events[i])
        && events[i].text == FriendlyName(events).value
        && forall j :: 0 <= j < i ==> !EndsScan(events[j])
    ensures FriendlyName(events).None? <==>
      forall i :: 0 <= i < |events| && IsNameStart(events[i]) ==>
        exists j :: 0 <= j < i && events[j].Eof?
    decreases |events|
  {
    if |events| == 0 {
    } else if events[0].Eof? {
      forall i | 0 <= i < |events| && IsNameStart(events[i])
        ensures exists j :: 0 <= j < i && events[j].Eof?
      {
        assert i != 0;
      }
    } else if IsNameStart(events[0]) {
      assert IsNameStart(events[0]);
    } else {
      var rest := events[1..];
      FriendlyNameIsFirstNameElement(rest);
      assert FriendlyName(events) == FriendlyName(rest);
      if FriendlyName(rest).Some? {
        var i :| 0 <= i < |rest| && IsNameStart(rest[i]) && rest[i].text == FriendlyName(rest).value
          && forall j :: 0 <= j < i ==> !EndsScan(rest[j]);
        assert events[i + 1] == rest[i];
        forall j | 0 <= j < i + 1 ensures !EndsScan(events[j]) {
          if j > 0 { assert events[j] == rest[j - 1]; }
        }
        assert IsNameStart(rest[i]) && !(exists j :: 0 <= j < i && rest[j].Eof?);
      } else {
        forall i | 0 <= i < |events| && IsNameStart(events[i])
          ensures exists j :: 0 <= j < i && events[j].Eof?
        {
          assert i != 0;
          assert IsNameStart(rest[i - 1]);
          var j :| 0 <= j < i - 1 && rest[j].Eof?;
          assert events[j + 1].Eof?;
        }
      }
    }
  }

  /** Every outcome before the failure point is a reply; the one at it failed. */
  lemma {:induction false} FailurePointIsFirstFailure(outcomes: seq<ProbeOutcome>)
    ensures forall i :: 0 <= i < FailurePoint(outcomes) ==> outcomes[i].Replied?
    ensures FailurePoint(outcomes) < |outcomes| ==> outcomes[FailurePoint(outcomes)].Failed?
    decreases |outcomes|
  {
    if |outcomes| > 0 && outcomes[0].Replied? {
      FailurePointIsFirstFailure(outcomes[1..]);
      forall i | 0 < i < FailurePoint(outcomes) ensures outcomes[i].Replied? {
        assert outcomes[i] == outcomes[1..][i - 1];
      }
    }
  }

  /** At most one device per reply consumed before the first failure. */
  lemma {:induction false} CollectAtMostOnePerReply(outcomes: seq<ProbeOutcome>)
    ensures |CollectDevices(outcomes)| <= FailurePoint(outcomes)
    decreases |outcomes|
  {
    if |outcomes| > 0 && outcomes[0].Replied? {
      CollectAtMostOnePerReply(outcomes[1..]);
    }
  }

  /**
   Each collected device is the friendly name of a reply before the first
   failure, paired with that reply's address.
   */
  lemma {:induction false} CollectedDeviceHasSource(outcomes: seq<ProbeOutcome>, d: RokuDevice)
    requires d in CollectDevices(outcomes)
    ensures exists i :: (0 <= i < FailurePoint(outcomes) && outcomes[i].Replied?
      && outcomes[i].addr == d.addr && FriendlyName(outcomes[i].events) == Some(d.name))
    decreases |outcomes|
  {
    var o := outcomes[0];
    var rest := outcomes[1..];
    if d in DeviceOf(o.addr, o.events) {
      assert outcomes[0].addr == d.addr;
    } else {
      CollectedDeviceHasSource(rest, d);
      var i :| 0 <= i < FailurePoint(rest) && rest[i].Replied?
        && rest[i].addr == d.addr && FriendlyName(rest[i].events) == Some(d.name);
      assert outcomes[i + 1] == rest[i];
    }
  }

  /** Replies are folded one after another: the fold distributes over a reply-only prefix. */
  lemma {:induction false} CollectAppend(replies: seq<ProbeOutcome>, rest: seq<ProbeOutcome>)
    requires forall j :: 0 <= j < |replies| ==> replies[j].Replied?
    ensures CollectDevices(replies + rest) == CollectDevices(replies) + CollectDevices(rest)
    decreases |replies|
  {
    if |replies| == 0 {
      assert replies + rest == rest;
    } else {
      CollectAppend(replies[1..], rest);
      assert (replies + rest)[1..] == replies[1..] + rest;
      assert (replies + rest)[0] == replies[0];
      ConcatAssociates(DeviceOf(replies[0].addr, replies[0].events), CollectDevices(replies[1..]), CollectDevices(rest));
    }
  }

  /**
   A reply preceded only by replies lands between the devices of those
   before it and of those after it: devices keep the order of consumption.
   */
  lemma CollectSplitsAtReply(before: seq<ProbeOutcome>, addr: SocketAddr, events: seq<Event>, after: seq<ProbeOutcome>)
    requires forall j :: 0 <= j < |before| ==> before[j].Replied?
    ensures CollectDevices(before + [Replied(addr, events)] + after)
      == CollectDevices(before) + DeviceOf(addr, events) + CollectDevices(after)
  {
    var tail := [Replied(addr, events)] + after;
    assert before + [Replied(addr, events)] + after == before + tail;
    CollectAppend(before, tail);
    assert tail[1..] == after;
  }

  /** Every reply preceded only by replies, that names its device, yields that device. */
  lemma CollectIsComplete(before: seq<ProbeOutcome>, addr: SocketAddr, events: seq<Event>, after: seq<ProbeOutcome>)
    requires forall j :: 0 <= j < |before| ==> before[j].Replied?
    requires FriendlyName(events).Some?
    ensures RokuDevice(FriendlyName(events).value, addr) in CollectDevices(before + [Replied(addr, events)] + after)
  {
    CollectSplitsAtReply(before, addr, events, after);
    var own := DeviceOf(addr, events);
    assert own[0] in CollectDevices(before) + own + CollectDevices(after);
  }

  /** Nothing after the first failed probe reaches the device list. */
  lemma {:induction false} CollectStopsAtFailure(replies: seq<ProbeOutcome>, rest: seq<ProbeOutcome>)
    requires forall i :: 0 <= i < |replies| ==> replies[i].Replied?
    ensures CollectDevices(replies + [Failed] + rest) == CollectDevices(replies)
    decreases |replies|
  {
    if |replies| == 0 {
      assert (replies + [Failed] + rest)[0] == Failed;
    } else {
      CollectStopsAtFailure(replies[1..], rest);
      assert (replies + [Failed] + rest)[1..] == replies[1..] + [Failed] + rest;
    }
  }

  /** A reply that reaches end of input before any name element contributes nothing. */
  lemma UnnamedReplyContributesNothing(addr: SocketAddr, events: seq<Event>, k: int)
    requires 0 <= k < |events| && events[k].Eof?
    requires forall j :: 0 <= j < k ==> !IsNameStart(events[j])
    ensures DeviceOf(addr, events) == []
  {
    FriendlyNameIsFirstNameElement(events);
    forall i | 0 <= i < |events| && IsNameStart(events[i])
      ensures exists j :: 0 <= j < i && events[j].Eof?
    {
      assert k < i;
    }
  }

  /** A failed first probe hides a later working device: the loop has already ended. */
  lemma FailureFirstHidesLaterDevices(addr: SocketAddr, name: string)
    ensures CollectDevices([Failed, Replied(addr, [Start(FriendlyNameTag, name), Eof])]) == []
    ensures CollectDevices([Replied(addr, [Start(FriendlyNameTag, name), Eof]), Failed])
      == [RokuDevice(name, addr)]
  {
    var named := Replied(addr, [Start(FriendlyNameTag, name), Eof]);
    assert [named, Failed][1..] == [Failed];
  }
}
