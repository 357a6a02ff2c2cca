/**
 * getWAVafterWakeword.py: a client whose module globals `isRecording` and
 * `sessionID` are driven by substring dispatch on the topic. A default-site
 * hotword starts an ASR session, any intent stops it and advances the session
 * number, captured audio is only decoded.
 */
module Wakeword {
  import opened PyStr
  import opened PyValues
  import opened Topics

  /** The module globals and what the client has sent. */
  datatype State = State(isRecording: bool, sessionID: nat, outbox: seq<Publish>, subscriptions: seq<string>)

  /** `isRecording = True`, `sessionID = 0` at import time. */
  function Initial(): State {
    State(true, 0, [], [])
  }

  /** The startListening request of `startASR`, naming the session `str(sessionID)`. */
  function StartPublish(sessionID: nat): Publish {
    Publish(StartListening, JsonPayload(JObject(map[
      "stopOnSilence" := JBool(false),
      "sessionId" := JStr(NatToStr(sessionID)),
      "sendAudioCaptured" := JBool(true)])))
  }

  function StartASRStep(s: State): State {
    s.(isRecording := true,
       outbox := s.outbox + [StartPublish(s.sessionID)],
       subscriptions := s.subscriptions + [AudioCapturedTopic(NatToStr(s.sessionID))])
  }

  function StopASRStep(s: State): State {
    s.(isRecording := false,
       outbox := s.outbox + [Publish(StopListening, NoPayload)],
       sessionID := s.sessionID + 1)
  }

  /** The branch `on_message` takes for a topic, after `str(msg.topic).strip()`. */
  function RouteOf(topic: string): Route {
    SubstringRoute(Strip(topic))
  }

  /** The effect of one call of `on_message`. */
  function Step(s: State, topic: string): State {
    match RouteOf(topic)
    case StartAsr => StartASRStep(s)
    case StopAsr => StopASRStep(s)
    case AudioCaptured => s
    case NoRoute => s
  }

  function Run(s: State, topics: seq<string>): State
    decreases |topics|
  {
    if topics == [] then s else Run(Step(s, topics[0]), topics[1..])
  }

  /** The number of messages in `topics` that reach `stopASR`. */
  function CountIntents(topics: seq<string>): nat
    decreases |topics|
  {
    if topics == [] then 0
    else (if RouteOf(topics[0]) == StopAsr then 1 else 0) + CountIntents(topics[1..])
  }

  /** Stripping the topic never changes the branch taken. */
  lemma RouteIgnoresStrip(topic: string)
    ensures RouteOf(topic) == SubstringRoute(topic)
  {
    StripKeepsRoute(topic);
  }

  /**
   * `startASR` records, opens the session `str(sessionID)` and subscribes to
   * that session's audio; the session number is left alone.
   */
  lemma StartASROpensCurrentSession(s: State)
    ensures var t := StartASRStep(s);
            && t.isRecording && t.sessionID == s.sessionID
            && t.outbox == s.outbox + [t.outbox[|t.outbox| - 1]]
            && t.outbox[|t.outbox| - 1].topic == StartListening
            && Subscript(t.outbox[|t.outbox| - 1].payload.value, "sessionId") == Ok(JStr(NatToStr(s.sessionID)))
            && t.subscriptions == s.subscriptions + ["rhasspy/asr/default/" + NatToStr(s.sessionID) + "/audioCaptured"]
  {
  }

  /** `stopASR` stops recording, sends a payload-less stopListening and advances the session by exactly one. */
  lemma StopASRAdvancesSession(s: State)
    ensures var t := StopASRStep(s);
            && !t.isRecording && t.sessionID == s.sessionID + 1
            && t.outbox == s.outbox + [Publish(StopListening, NoPayload)]
            && t.subscriptions == s.subscriptions
  {
  }

  /** Captured audio and unmatched topics change nothing. */
  lemma AudioAndUnmatchedChangeNothing(s: State, topic: string)
    requires RouteOf(topic) == AudioCaptured || RouteOf(topic) == NoRoute
    ensures Step(s, topic) == s
  {
  }

  /**
   * A hotword detected on any other site, named without `/` and without
   * `audioCaptured`, changes neither global.
   */
  lemma OtherSiteHotwordChangesNothing(s: State, site: string)
    requires '/' !in site && site != "default" && !Contains(site, AudioCapturedPart)
    ensures Step(s, HotwordTopic(site)) == s
  {
    RouteIgnoresStrip(HotwordTopic(site));
    OtherSiteHotwordIgnored(site);
  }

  /**
   * Over any sequence of messages the session number grows by exactly the
   * number of intent messages, so it never decreases.
   */
  lemma {:induction false} SessionCountsIntents(s: State, topics: seq<string>)
    ensures Run(s, topics).sessionID == s.sessionID + CountIntents(topics)
    ensures Run(s, topics).sessionID >= s.sessionID
    decreases |topics|
  {
    if topics != [] {
      SessionCountsIntents(Step(s, topics[0]), topics[1..]);
    }
  }

  /** From start-up, `sessionID` is the number of intent messages handled. */
  lemma SessionFromStartUp(topics: seq<string>)
    ensures Run(Initial(), topics).sessionID == CountIntents(topics)
  {
    SessionCountsIntents(Initial(), topics);
  }

  /** Whether the last hotword or intent message in `topics` was a hotword, if there was one. */
  function LastToggle(topics: seq<string>): Option<bool>
    decreases |topics|
  {
    if topics == [] then None
    else
      var rest := LastToggle(topics[1..]);
      if rest.Some? then rest
      else match RouteOf(topics[0])
        case StartAsr => Some(true)
        case StopAsr => Some(false)
        case _ => None
  }

  /** `isRecording` follows the last hotword or intent message; without one it keeps its value. */
  lemma {:induction false} RecordingFollowsLastToggle(s: State, topics: seq<string>)
    ensures Run(s, topics).isRecording == (if LastToggle(topics).Some? then LastToggle(topics).value else s.isRecording)
    decreases |topics|
  {
    if topics != [] {
      RecordingFollowsLastToggle(Step(s, topics[0]), topics[1..]);
    }
  }

  /** The client: the two globals plus what it published and subscribed to. */
  class WakewordClient {
    var isRecording: bool
    var sessionID: nat
    var outbox: seq<Publish>
    var subscriptions: seq<string>

    function Snapshot(): State
      reads this
    {
      State(isRecording, sessionID, outbox, subscriptions)
    }

    constructor ()
      ensures Snapshot() == Initial()
    {
      isRecording := true;
      sessionID := 0;
      outbox := [];
      subscriptions := [];
    }

    /** `startASR(client)` */
    method StartASR()
      modifies this
      ensures Snapshot() == StartASRStep(old(Snapshot()))
    {
      isRecording := true;
      outbox := outbox + [StartPublish(sessionID)];
      subscriptions := subscriptions + ["rhasspy/asr/default/" + NatToStr(sessionID) + "/audioCaptured"];
    }

    /** `stopASR(client)` */
    method StopASR()
      modifies this
      ensures Snapshot() == StopASRStep(old(Snapshot()))
    {
      isRecording := false;
      outbox := outbox + [Publish(StopListening, NoPayload)];
      sessionID := sessionID + 1;
    }

    /** `on_message`: first match among the three substrings of the stripped topic. */
    method OnMessage(topic: string)
      modifies this
      ensures Snapshot() == Step(old(Snapshot()), topic)
    {
      var stripped := Strip(topic);
      if Contains(stripped, HotwordDefaultDetected) {
        StartASR();
      } else if Contains(stripped, IntentPrefix) {
        StopASR();
      } else if Contains(stripped, AudioCapturedPart) {
        // The PCM decoding and its console output are not modelled.
      } else {
        // Should not happen.
      }
    }
  }
}
