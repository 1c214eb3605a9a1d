/**
  The ASIO output's answer to driver messages (`HandleASIOMessage`): which
  selectors it claims to support, what it replies, and the events it posts to
  its event queue. The queue is modelled as the sequence of event codes
  written to it, which a message can only extend.
 */
module AsioMessages {
  import opened Bytes
  import opened AudioFormat

  // Message selectors, as the ASIO SDK numbers them (kAsio...).
  const SelectorSupported: int := 1
  const EngineVersion: int := 2
  const ResetRequest: int := 3
  const BufferSizeChange: int := 4
  const ResyncRequest: int := 5
  const LatenciesChanged: int := 6
  const SupportsTimeInfo: int := 7
  const SupportsTimeCode: int := 8
  const MmcCommand: int := 9
  const SupportsInputMonitor: int := 10
  const SupportsInputGain: int := 11
  const SupportsInputMeter: int := 12
  const SupportsOutputGain: int := 13
  const SupportsOutputMeter: int := 14
  const Overload: int := 15

  // Event codes the output posts to its event queue.
  /** The driver asked for a reset: 'rest'. */
  const ResetNeededEvent: uint32 := FourCC('r', 'e', 's', 't')
  /** The driver reported an overload: 'ovld'. */
  const OverloadEvent: uint32 := FourCC('o', 'v', 'l', 'd')

  /** The selectors the output answers 1 to when asked whether it supports them. */
  const AdvertisedSelectors: set<int> :=
    {ResetRequest, EngineVersion, ResyncRequest, LatenciesChanged, SupportsTimeInfo, SupportsTimeCode, SupportsInputMonitor}

  /** The value returned to the driver and the event queue after the message. */
  datatype Reply = Reply(result: int, queue: seq<uint32>)

  /**
    `HandleASIOMessage`. `kAsioSelectorSupported` answers 1 for an advertised
    selector and 0 otherwise; a reset request and an overload each post an
    event and answer 1; resync, latency change and time-info support answer
    1; the engine version is 2; everything else answers 0.
   */
  function HandleMessage(selector: int, value: int, queue: seq<uint32>): (r: Reply)
    ensures |queue| <= |r.queue| <= |queue| + 1 && r.queue[..|queue|] == queue
    ensures |r.queue| == |queue| + 1 <==> selector == ResetRequest || selector == Overload
    ensures selector == ResetRequest ==> r.queue[|queue|] == ResetNeededEvent
    ensures selector == Overload ==> r.queue[|queue|] == OverloadEvent
    ensures selector == SelectorSupported ==> (r.result == 1 <==> value in AdvertisedSelectors)
    ensures r.result in {0, 1, 2}
    ensures r.result == 2 <==> selector == EngineVersion
    ensures selector in {ResetRequest, ResyncRequest, LatenciesChanged, SupportsTimeInfo, Overload} ==> r.result == 1
    ensures selector !in {SelectorSupported, EngineVersion, ResetRequest, ResyncRequest, LatenciesChanged, SupportsTimeInfo, Overload} ==>
      r.result == 0
  {
    if selector == SelectorSupported then
      if value == ResetRequest || value == EngineVersion || value == ResyncRequest || value == LatenciesChanged
         || value == SupportsTimeInfo || value == SupportsTimeCode || value == SupportsInputMonitor
      then Reply(1, queue)
      else Reply(0, queue)
    else if selector == EngineVersion then Reply(2, queue)
    else if selector == ResetRequest then Reply(1, queue + [ResetNeededEvent])
    else if selector == ResyncRequest || selector == LatenciesChanged || selector == SupportsTimeInfo then Reply(1, queue)
    else if selector == Overload then Reply(1, queue + [OverloadEvent])
    else Reply(0, queue)
  }

  /** The event a single message posts, if any. */
  function EventsOf(selector: int): seq<uint32> {
    if selector == ResetRequest then [ResetNeededEvent]
    else if selector == Overload then [OverloadEvent]
    else []
  }

  /** The events a run of (selector, value) messages posts, in order. */
  function Events(messages: seq<(int, int)>): seq<uint32> {
    if |messages| == 0 then [] else EventsOf(messages[0].0) + Events(messages[1..])
  }

  /** The queue after handling `messages` one after another. */
  function HandleAll(messages: seq<(int, int)>, queue: seq<uint32>): seq<uint32>
    decreases |messages|
  {
    if |messages| == 0 then queue
    else HandleAll(messages[1..], HandleMessage(messages[0].0, messages[0].1, queue).queue)
  }

  /** One message appends exactly the event its selector names. */
  lemma HandleMessagePosts(selector: int, value: int, queue: seq<uint32>)
    ensures HandleMessage(selector, value, queue).queue == queue + EventsOf(selector)
  {
    var r := HandleMessage(selector, value, queue);
    if |r.queue| == |queue| {
      assert r.queue == r.queue[..|queue|];
    } else {
      assert r.queue == r.queue[..|queue|] + [r.queue[|queue|]];
    }
  }

  /**
    Handling messages in sequence only appends to the queue: the queue ends as
    it started, followed by one event per reset request and overload, in the
    order they arrived.
   */
  lemma {:induction false} HandleAllAppends(messages: seq<(int, int)>, queue: seq<uint32>)
    ensures HandleAll(messages, queue) == queue + Events(messages)
    decreases |messages|
  {
    if |messages| > 0 {
      var m := messages[0];
      HandleMessagePosts(m.0, m.1, queue);
      HandleAllAppends(messages[1..], queue + EventsOf(m.0));
      assert queue + EventsOf(m.0) + Events(messages[1..]) == queue + Events(messages);
    }
  }

  /**
    Advertised versus answered: time-code and input-monitor support are
    advertised through `kAsioSelectorSupported`, yet asked directly they answer
    0; every other advertised selector answers non-zero.
   */
  lemma AdvertisedAnswers(selector: int, value: int, queue: seq<uint32>)
    requires HandleMessage(SelectorSupported, selector, queue).result == 1
    ensures HandleMessage(selector, value, queue).result == 0 <==>
      selector == SupportsTimeCode || selector == SupportsInputMonitor
  {
  }

  /** Overload is answered with 1 and queued, but never advertised as supported. */
  lemma OverloadAnsweredButNotAdvertised(value: int, queue: seq<uint32>)
    ensures HandleMessage(Overload, value, queue).result == 1
    ensures HandleMessage(SelectorSupported, Overload, queue).result == 0
  {
  }

  /** The two events the handler posts are distinguishable. */
  lemma EventsDiffer()
    ensures ResetNeededEvent != OverloadEvent
  {
    FourCCLowByte('r', 'e', 's', 't');
    FourCCLowByte('o', 'v', 'l', 'd');
  }
}
