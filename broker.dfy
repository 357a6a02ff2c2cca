/**
 * The `Broker` of broker.py: the turn bookkeeping it does in `on_message`,
 * `start_asr` and `stop_asr`, its `evaluation_loop` over a directory of test
 * recordings, and `accuracy()`.
 *
 * As written, the site filter reads `siteId` from a dict that is still empty,
 * so with a configured site every message that has a payload is dropped;
 * `stop_asr` adds 1 to the string session id and raises TypeError; and the
 * evaluation loop publishes the same session id for every file.
 */
module BrokerPy {
  import opened PyStr
  import opened PyValues
  import opened Topics
  import opened AudioFiles
  import opened Requests
  import EvalLog

  /** What `on_message` returns: `False` when the site filter drops the message, otherwise `None`. */
  datatype Reply = NotForMe | Handled

  /** The branch of `on_message` a topic selects. */
  datatype Handler =
    | IntentParsedHandler
    | IntentNotRecognizedHandler
    | TextCapturedHandler
    | BySubstring(route: Route)

  /**
   * First-match dispatch: exact comparisons of `msg.topic`, then substring tests
   * on `msg.topic.strip()` (stripping never changes their outcome).
   */
  function Dispatch(topic: string): (h: Handler)
    ensures h == IntentParsedHandler <==> topic == IntentRecognized
    ensures h == IntentNotRecognizedHandler <==> topic == IntentNotRecognized
    ensures h == TextCapturedHandler <==> topic == TextCaptured
    ensures h.BySubstring? ==> h.route == SubstringRoute(topic)
  {
    if topic == IntentRecognized then IntentParsedHandler
    else if topic == IntentNotRecognized then IntentNotRecognizedHandler
    else if topic == TextCaptured then TextCapturedHandler
    else
      StripKeepsRoute(topic);
      BySubstring(SubstringRoute(Strip(topic)))
  }

  /**
   * The site filter of broker.py: a message without payload always passes; one
   * with a payload is compared by `siteId` looked up in the still-empty dict.
   */
  predicate ForMe(siteId: Option<string>, body: Body) {
    body.Empty? || EqualsOptStr(Get(map[], "siteId"), siteId)
  }

  /** With a configured site, exactly the messages without payload pass the filter. */
  lemma ForMeOnlyWithoutPayload(siteId: Option<string>, body: Body)
    ensures ForMe(siteId, body) <==> body.Empty? || siteId.None?
  {
  }

  /** The dict the handlers read: the decoded payload, or `{}` (no payload, or a non-UTF-8 one). */
  function PayloadOf(body: Body): map<string, JValue> {
    if body.Json? then body.obj else map[]
  }

  /** The state `on_message`, `start_asr`, `stop_asr` and `evaluation_loop` read and write. */
  datatype State = State(
    siteId: Option<string>,
    requestId: string,
    sessionId: string,
    currentFile: string,
    currentSentence: JValue,
    currentIntent: JValue,
    targetIntent: Option<string>,
    intentReceived: bool,
    isRecording: bool,
    testLog: EvalLog.Log,
    outbox: seq<Publish>,
    subscriptions: seq<string>)

  /** The state right after `__init__` (the MQTT client and its connection are not modelled). */
  function Initial(siteId: Option<string>): State {
    State(siteId, "request-1", "session-1", "", JStr(""), JStr(""), Some(""), false, false,
          map[], [], [])
  }

  datatype Outcome = Outcome(state: State, reply: Result<Reply>)

  /** The startListening request of `start_asr`. */
  function AsrStartPublish(sessionId: string): Publish {
    Publish(StartListening, JsonPayload(JObject(map[
      "stopOnSilence" := JBool(false),
      "sessionId" := JStr(sessionId),
      "sendAudioCaptured" := JBool(true)])))
  }

  /** `start_asr`: recording on, startListening published, the session's audio topic subscribed. */
  function StartAsrStep(s: State): State {
    s.(isRecording := true,
       outbox := s.outbox + [AsrStartPublish(s.sessionId)],
       subscriptions := s.subscriptions + [AudioCapturedTopic(s.sessionId)])
  }

  /**
   * `stop_asr`: recording off and a payload-less stopListening published; then
   * `session_id += 1` on a string raises TypeError, leaving the session id as it was.
   */
  function StopAsrStep(s: State): Outcome {
    Outcome(s.(isRecording := false, outbox := s.outbox + [Publish(StopListening, NoPayload)]),
            Err(TypeError))
  }

  /** The intentParsed handler: record the intent, raise the flag, log the turn when a target is set. */
  function IntentParsedStep(s: State, payload: map<string, JValue>): Outcome {
    match IntentName(payload)
    case Err(e) => Outcome(s, Err(e))
    case Ok(intent) =>
      var s1 := s.(currentIntent := intent, intentReceived := true);
      if s.targetIntent.Some? then
        Outcome(s1.(testLog := s.testLog[s.currentFile :=
                               EvalLog.Entry(s.currentSentence, intent, s.targetIntent.value)]),
                Ok(Handled))
      else Outcome(s1, Ok(Handled))
  }

  /** The textCaptured handler: store the text and ask the NLU for its intent. */
  function TextCapturedStep(s: State, payload: map<string, JValue>): Outcome {
    match Subscript(JObject(payload), "text")
    case Err(e) => Outcome(s, Err(e))
    case Ok(text) =>
      Outcome(s.(currentSentence := text, outbox := s.outbox + [NluQueryPublish(text, s.siteId)]),
              Ok(Handled))
  }

  /** The handler `h` run on `payload`. */
  function Handle(s: State, payload: map<string, JValue>, h: Handler): Outcome {
    match h
    case IntentParsedHandler => IntentParsedStep(s, payload)
    case IntentNotRecognizedHandler => Outcome(s.(intentReceived := true), Ok(Handled))
    case TextCapturedHandler => TextCapturedStep(s, payload)
    case BySubstring(StartAsr) => Outcome(StartAsrStep(s), Ok(Handled))
    case BySubstring(StopAsr) => StopAsrStep(s)
    case BySubstring(AudioCaptured) => Outcome(s, Ok(Handled))
    case BySubstring(NoRoute) => Outcome(s, Ok(Handled))
  }

  /** The effect of one call of `on_message`. */
  function Step(s: State, msg: Message): Outcome {
    if !ForMe(s.siteId, msg.body) then Outcome(s, Ok(NotForMe))
    else Handle(s, PayloadOf(msg.body), Dispatch(msg.topic))
  }

  /** Messages handled one after another; a handler that raises still leaves its earlier effects. */
  function Run(s: State, msgs: seq<Message>): State
    decreases |msgs|
  {
    if msgs == [] then s else Run(Step(s, msgs[0]).state, msgs[1..])
  }

  /** With a site configured, a message with a payload is dropped and changes nothing. */
  lemma PayloadDropped(s: State, msg: Message)
    requires s.siteId.Some? && !msg.body.Empty?
    ensures Step(s, msg) == Outcome(s, Ok(NotForMe))
  {
  }

  /**
   * intentParsed records the intent, raises the flag and, with a target set,
   * overwrites the log entry of the current file only.
   */
  lemma IntentParsedLogsCurrentFile(s: State, msg: Message)
    requires ForMe(s.siteId, msg.body) && msg.topic == IntentRecognized
    requires IntentName(PayloadOf(msg.body)).Ok? && s.targetIntent.Some?
    ensures var t := Step(s, msg).state;
            var intent := IntentName(PayloadOf(msg.body)).value;
            && t.currentIntent == intent && t.intentReceived
            && t.testLog.Keys == s.testLog.Keys + {s.currentFile}
            && t.testLog[s.currentFile] == EvalLog.Entry(s.currentSentence, intent, s.targetIntent.value)
            && (forall f :: f in s.testLog && f != s.currentFile ==> t.testLog[f] == s.testLog[f])
            && t.(currentIntent := s.currentIntent, intentReceived := s.intentReceived,
                  testLog := s.testLog) == s
  {
  }

  /** intentNotRecognized only raises the flag. */
  lemma IntentNotRecognizedOnlyFlags(s: State, msg: Message)
    requires ForMe(s.siteId, msg.body) && msg.topic == IntentNotRecognized
    ensures Step(s, msg) == Outcome(s.(intentReceived := true), Ok(Handled))
  {
  }

  /**
   * textCaptured stores the text and publishes exactly one NLU query whose
   * `input` is that text, unchanged, and whose `siteId` is the broker's.
   */
  lemma TextCapturedQueriesVerbatim(s: State, msg: Message)
    requires ForMe(s.siteId, msg.body) && msg.topic == TextCaptured
    requires "text" in PayloadOf(msg.body)
    ensures var t := Step(s, msg).state;
            var text := PayloadOf(msg.body)["text"];
            && t.currentSentence == text
            && |t.outbox| == |s.outbox| + 1 && t.outbox[..|s.outbox|] == s.outbox
            && t.outbox[|s.outbox|].topic == NluQuery
            && Subscript(t.outbox[|s.outbox|].payload.value, "input") == Ok(text)
            && Subscript(t.outbox[|s.outbox|].payload.value, "siteId") == Ok(OptStr(s.siteId))
  {
  }

  /** An intent topic that passes the filter runs `stop_asr`, which always raises TypeError. */
  lemma IntentTopicRaises(s: State, msg: Message)
    requires ForMe(s.siteId, msg.body) && Dispatch(msg.topic) == BySubstring(StopAsr)
    ensures Step(s, msg).reply == Err(TypeError)
    ensures !Step(s, msg).state.isRecording
    ensures Step(s, msg).state.sessionId == s.sessionId
  {
  }

  /**
   * A hotword detected on the default site runs `start_asr`: recording on, one
   * startListening carrying the unchanged session id, that session's audio subscribed.
   */
  lemma HotwordStartsAsr(s: State, msg: Message)
    requires ForMe(s.siteId, msg.body) && Dispatch(msg.topic) == BySubstring(Route.StartAsr)
    ensures var t := Step(s, msg);
            && t.reply == Ok(Handled) && t.state.isRecording && t.state.sessionId == s.sessionId
            && |t.state.outbox| == |s.outbox| + 1 && t.state.outbox[..|s.outbox|] == s.outbox
            && t.state.outbox[|s.outbox|].topic == StartListening
            && Subscript(t.state.outbox[|s.outbox|].payload.value, "sessionId") == Ok(JStr(s.sessionId))
            && t.state.subscriptions == s.subscriptions + [AudioCapturedTopic(s.sessionId)]
  {
    assert Step(s, msg) == Outcome(StartAsrStep(s), Ok(Handled));
    StartListeningCarriesSession(s.sessionId);
    assert (s.outbox + [AsrStartPublish(s.sessionId)])[..|s.outbox|] == s.outbox;
  }

  /** The startListening request carries the session id it was built from. */
  lemma StartListeningCarriesSession(sessionId: string)
    ensures AsrStartPublish(sessionId).topic == StartListening
    ensures Subscript(AsrStartPublish(sessionId).payload.value, "sessionId") == Ok(JStr(sessionId))
  {
  }

  /** Captured audio and topics no branch matches change nothing. */
  lemma UnmatchedTopicIgnored(s: State, msg: Message)
    requires ForMe(s.siteId, msg.body)
    requires Dispatch(msg.topic) == BySubstring(AudioCaptured) || Dispatch(msg.topic) == BySubstring(NoRoute)
    ensures Step(s, msg) == Outcome(s, Ok(Handled))
  {
  }

  /**
   * With a site configured no message ever reaches the log: every message with
   * a payload is dropped, and intentParsed without one raises KeyError.
   */
  lemma {:induction false} ConfiguredSiteNeverLogs(s: State, msgs: seq<Message>)
    requires s.siteId.Some?
    ensures Run(s, msgs).testLog == s.testLog
    ensures Run(s, msgs).siteId == s.siteId
    decreases |msgs|
  {
    if msgs != [] {
      ConfiguredSiteStep(s, msgs[0]);
      ConfiguredSiteNeverLogs(Step(s, msgs[0]).state, msgs[1..]);
    }
  }

  lemma ConfiguredSiteStep(s: State, msg: Message)
    requires s.siteId.Some?
    ensures Step(s, msg).state.testLog == s.testLog
    ensures Step(s, msg).state.siteId == s.siteId
  {
    if ForMe(s.siteId, msg.body) {
      assert PayloadOf(msg.body) == map[];
      HandleWithoutPayload(s, Dispatch(msg.topic));
    }
  }

  lemma HandleWithoutPayload(s: State, h: Handler)
    ensures Handle(s, map[], h).state.testLog == s.testLog
    ensures Handle(s, map[], h).state.siteId == s.siteId
  {
    if h == IntentParsedHandler {
      assert IntentName(map[]).Err?;
    }
  }

  // ---------------------------------------------------------------------------
  // evaluation_loop

  /** The maximum number of 50 ms polls of `intent_received` after a turn. */
  const PollLimit: nat := 500

  datatype EntryOutcome = EntryOutcome(state: State, result: Result<()>)

  /**
   * One directory entry of `evaluation_loop`. `replies` are the messages the
   * network thread delivers while the turn waits; the flag is then polled and reset.
   */
  function EntryStep(s: State, path: string, entry: DirEntry, replies: seq<Message>): EntryOutcome {
    if !IsAudioFile(entry.name) then EntryOutcome(s, Ok(()))
    else
      match TargetLabel(entry.name)
      case Err(e) => EntryOutcome(s, Err(e))
      case Ok(target) =>
        EntryOutcome(Run(TurnStart(s, path, entry, target), replies).(intentReceived := false), Ok(()))
  }

  /** The state once a turn for `entry` is set up and its three requests are published. */
  function TurnStart(s: State, path: string, entry: DirEntry, target: string): State {
    s.(targetIntent := Some(target), currentFile := JoinPath(path, entry.name),
       outbox := s.outbox + TurnPublishes(s.siteId, s.sessionId, entry.data))
  }

  /** `evaluation_loop` over the first `|entries|` directory entries; it stops at the first exception. */
  function Evaluate(s: State, path: string, entries: seq<DirEntry>, replies: seq<seq<Message>>): EntryOutcome
    requires |replies| == |entries|
    decreases |entries|
  {
    if entries == [] then EntryOutcome(s, Ok(()))
    else
      var n := |entries| - 1;
      var before := Evaluate(s, path, entries[..n], replies[..n]);
      if before.result.Err? then before
      else EntryStep(before.state, path, entries[n], replies[n])
  }

  /** Every publish after position `from` of `t`'s outbox names `sessionId` whenever it names a session. */
  predicate SameSessionSince(t: State, from: nat, sessionId: string) {
    from <= |t.outbox| && forall i :: from <= i < |t.outbox| ==> NamesOnly(t.outbox[i], sessionId)
  }

  lemma {:induction false} RunKeepsSession(s: State, msgs: seq<Message>, from: nat)
    requires SameSessionSince(s, from, s.sessionId)
    ensures SameSessionSince(Run(s, msgs), from, s.sessionId)
    ensures Run(s, msgs).sessionId == s.sessionId
    decreases |msgs|
  {
    if msgs != [] {
      StepKeepsSession(s, msgs[0], from);
      RunKeepsSession(Step(s, msgs[0]).state, msgs[1..], from);
    }
  }

  lemma StepKeepsSession(s: State, msg: Message, from: nat)
    requires SameSessionSince(s, from, s.sessionId)
    ensures SameSessionSince(Step(s, msg).state, from, s.sessionId)
    ensures Step(s, msg).state.sessionId == s.sessionId
  {
    if ForMe(s.siteId, msg.body) {
      HandleKeepsSession(s, PayloadOf(msg.body), Dispatch(msg.topic), from);
    }
  }

  lemma HandleKeepsSession(s: State, payload: map<string, JValue>, h: Handler, from: nat)
    requires SameSessionSince(s, from, s.sessionId)
    ensures SameSessionSince(Handle(s, payload, h).state, from, s.sessionId)
    ensures Handle(s, payload, h).state.sessionId == s.sessionId
  {
    if h == TextCapturedHandler && "text" in payload {
      var q := NluQueryPublish(payload["text"], s.siteId);
      assert "sessionId" !in q.payload.value.fields;
      assert NamesOnly(q, s.sessionId);
    } else if h == BySubstring(StartAsr) {
      assert NamesOnly(AsrStartPublish(s.sessionId), s.sessionId);
    }
  }

  /** The three turn requests name the session they are given. */
  lemma TurnStartNamesSession(s: State, path: string, entry: DirEntry, target: string, from: nat)
    requires SameSessionSince(s, from, s.sessionId)
    ensures SameSessionSince(TurnStart(s, path, entry, target), from, s.sessionId)
  {
    var ps := TurnPublishes(s.siteId, s.sessionId, entry.data);
    TurnPublishesNameSession(s.siteId, s.sessionId, entry.data);
    var t := TurnStart(s, path, entry, target);
    assert t.outbox == s.outbox + ps;
    forall i | from <= i < |t.outbox|
      ensures NamesOnly(t.outbox[i], s.sessionId)
    {
      if i >= |s.outbox| {
        assert t.outbox[i] == ps[i - |s.outbox|];
      }
    }
  }

  lemma EntryKeepsSession(s: State, path: string, entry: DirEntry, replies: seq<Message>, from: nat)
    requires SameSessionSince(s, from, s.sessionId)
    ensures SameSessionSince(EntryStep(s, path, entry, replies).state, from, s.sessionId)
    ensures EntryStep(s, path, entry, replies).state.sessionId == s.sessionId
  {
    if IsAudioFile(entry.name) && TargetLabel(entry.name).Ok? {
      var s1 := TurnStart(s, path, entry, TargetLabel(entry.name).value);
      TurnStartNamesSession(s, path, entry, TargetLabel(entry.name).value, from);
      RunKeepsSession(s1, replies, from);
    }
  }

  /**
   * The evaluation loop never advances the session id: every request it or the
   * handlers publish during the run that names a session names the initial one.
   */
  lemma {:induction false} EvaluateUsesOneSession(s: State, path: string, entries: seq<DirEntry>,
                                                  replies: seq<seq<Message>>)
    requires |replies| == |entries|
    ensures var t := Evaluate(s, path, entries, replies).state;
            t.sessionId == s.sessionId && SameSessionSince(t, |s.outbox|, s.sessionId)
    decreases |entries|
  {
    if entries != [] {
      var n := |entries| - 1;
      EvaluateUsesOneSession(s, path, entries[..n], replies[..n]);
      var before := Evaluate(s, path, entries[..n], replies[..n]);
      if before.result.Ok? {
        EntryKeepsSession(before.state, path, entries[n], replies[n], |s.outbox|);
      }
    }
  }

  /** Handlers never touch the site, the request and session ids, the current file or the target. */
  lemma HandleFrame(s: State, payload: map<string, JValue>, h: Handler)
    ensures var t := Handle(s, payload, h).state;
            && t.siteId == s.siteId && t.requestId == s.requestId && t.sessionId == s.sessionId
            && t.currentFile == s.currentFile && t.targetIntent == s.targetIntent
  {
  }

  lemma {:induction false} RunFrame(s: State, msgs: seq<Message>)
    ensures var t := Run(s, msgs);
            && t.siteId == s.siteId && t.requestId == s.requestId && t.sessionId == s.sessionId
            && t.currentFile == s.currentFile && t.targetIntent == s.targetIntent
    decreases |msgs|
  {
    if msgs != [] {
      if ForMe(s.siteId, msgs[0].body) {
        HandleFrame(s, PayloadOf(msgs[0].body), Dispatch(msgs[0].topic));
      }
      RunFrame(Step(s, msgs[0]).state, msgs[1..]);
    }
  }

  /**
   * A non-audio entry changes nothing; an audio file without `-` raises
   * IndexError before anything is published; any other audio file ends its
   * turn with the flag down and the file and its label as the current ones.
   */
  lemma EntryOutcomes(s: State, path: string, entry: DirEntry, replies: seq<Message>)
    ensures !IsAudioFile(entry.name) ==> EntryStep(s, path, entry, replies) == EntryOutcome(s, Ok(()))
    ensures IsAudioFile(entry.name) && '-' !in entry.name ==>
              EntryStep(s, path, entry, replies) == EntryOutcome(s, Err(IndexError))
    ensures IsAudioFile(entry.name) && '-' in entry.name ==>
              var t := EntryStep(s, path, entry, replies);
              && t.result.Ok?
              && !t.state.intentReceived
              && t.state.targetIntent == Some(TargetLabel(entry.name).value)
              && t.state.currentFile == JoinPath(path, entry.name)
              && t.state.sessionId == s.sessionId
  {
    if IsAudioFile(entry.name) && '-' in entry.name {
      RunFrame(TurnStart(s, path, entry, TargetLabel(entry.name).value), replies);
    }
  }

  /**
   * As written, a broker with a configured site (the default is 'default')
   * never logs a result, so `accuracy()` after the loop raises ZeroDivisionError.
   */
  lemma ConfiguredSiteAccuracyFails(site: string, path: string, entries: seq<DirEntry>,
                                    replies: seq<seq<Message>>)
    requires |replies| == |entries|
    ensures Evaluate(Initial(Some(site)), path, entries, replies).state.testLog == map[]
    ensures EvalLog.AccuracyOf(Evaluate(Initial(Some(site)), path, entries, replies).state.testLog)
              == Err(ZeroDivisionError)
  {
    EvaluateKeepsLog(Initial(Some(site)), path, entries, replies);
    EvalLog.EmptyLogDivides(map[]);
  }

  lemma {:induction false} EvaluateKeepsLog(s: State, path: string, entries: seq<DirEntry>,
                                            replies: seq<seq<Message>>)
    requires |replies| == |entries| && s.siteId.Some?
    ensures Evaluate(s, path, entries, replies).state.testLog == s.testLog
    ensures Evaluate(s, path, entries, replies).state.siteId == s.siteId
    decreases |entries|
  {
    if entries != [] {
      var n := |entries| - 1;
      EvaluateKeepsLog(s, path, entries[..n], replies[..n]);
      var before := Evaluate(s, path, entries[..n], replies[..n]);
      if before.result.Ok? && IsAudioFile(entries[n].name) && TargetLabel(entries[n].name).Ok? {
        ConfiguredSiteNeverLogs(TurnStart(before.state, path, entries[n], TargetLabel(entries[n].name).value),
                                replies[n]);
      }
    }
  }

  // ---------------------------------------------------------------------------
  // The object

  class Broker {
    var siteId: Option<string>
    var requestId: string
    var sessionId: string
    var currentFile: string
    var currentSentence: JValue
    var currentIntent: JValue
    var targetIntent: Option<string>
    var intentReceived: bool
    var isRecording: bool
    var testLog: EvalLog.Log
    var outbox: seq<Publish>
    var subscriptions: seq<string>

    /** The broker's fields as one value. */
    function Snapshot(): State
      reads this
    {
      State(siteId, requestId, sessionId, currentFile, currentSentence, currentIntent,
            targetIntent, intentReceived, isRecording, testLog, outbox, subscriptions)
    }

    constructor (siteId: Option<string>)
      ensures Snapshot() == Initial(siteId)
    {
      this.siteId := siteId;
      requestId := "request-1";
      sessionId := "session-1";
      currentFile := "";
      currentSentence := JStr("");
      currentIntent := JStr("");
      targetIntent := Some("");
      intentReceived := false;
      isRecording := false;
      testLog := map[];
      outbox := [];
      subscriptions := [];
    }

    /** `start_asr` */
    method StartAsr()
      modifies this
      ensures Snapshot() == StartAsrStep(old(Snapshot()))
    {
      isRecording := true;
      outbox := outbox + [AsrStartPublish(sessionId)];
      subscriptions := subscriptions + [AudioCapturedTopic(sessionId)];
    }

    /** `stop_asr`: the increment of the string session id raises TypeError. */
    method StopAsr() returns (r: Result<()>)
      modifies this
      ensures Snapshot() == StopAsrStep(old(Snapshot())).state
      ensures r == Err(TypeError)
    {
      isRecording := false;
      outbox := outbox + [Publish(StopListening, NoPayload)];
      r := Err(TypeError);
    }

    /** `on_message`: the site filter and the payload decoding, then the handler. */
    method OnMessage(msg: Message) returns (r: Result<Reply>)
      modifies this
      ensures Snapshot() == Step(old(Snapshot()), msg).state
      ensures r == Step(old(Snapshot()), msg).reply
    {
      var payload: map<string, JValue> := map[];
      if !msg.body.Empty? {
        var siteIdValue := Get(payload, "siteId");
        var isForMe := EqualsOptStr(siteIdValue, siteId);
        if !isForMe {
          return Ok(NotForMe);
        }
        if msg.body.Json? {
          payload := msg.body.obj;
        }
      }
      assert payload == PayloadOf(msg.body);
      r := Dispatched(msg.topic, payload);
    }

    /** The topic tests of `on_message`, in source order, and the handler each selects. */
    method Dispatched(topic: string, payload: map<string, JValue>) returns (r: Result<Reply>)
      modifies this
      ensures Snapshot() == Handle(old(Snapshot()), payload, Dispatch(topic)).state
      ensures r == Handle(old(Snapshot()), payload, Dispatch(topic)).reply
    {
      var stripped := Strip(topic);
      ghost var s0 := Snapshot();
      ghost var h := Dispatch(topic);
      if topic == IntentRecognized {
        assert Handle(s0, payload, h) == IntentParsedStep(s0, payload);
        r := OnIntentParsed(payload);
      } else if topic == IntentNotRecognized {
        assert Handle(s0, payload, h) == Outcome(s0.(intentReceived := true), Ok(Handled));
        intentReceived := true;
        r := Ok(Handled);
      } else if topic == TextCaptured {
        assert Handle(s0, payload, h) == TextCapturedStep(s0, payload);
        r := OnTextCaptured(payload);
      } else if Contains(stripped, HotwordDefaultDetected) {
        assert Handle(s0, payload, h) == Outcome(StartAsrStep(s0), Ok(Handled));
        StartAsr();
        r := Ok(Handled);
      } else if Contains(stripped, IntentPrefix) {
        assert Handle(s0, payload, h) == StopAsrStep(s0);
        var stopped := StopAsr();
        r := Err(stopped.error);
      } else if Contains(stripped, AudioCapturedPart) {
        assert Handle(s0, payload, h) == Outcome(s0, Ok(Handled));
        // The PCM decoding and the audio callback are not modelled.
        r := Ok(Handled);
      } else {
        assert Handle(s0, payload, h) == Outcome(s0, Ok(Handled));
        r := Ok(Handled);
      }
    }

    /** The intentParsed branch of `on_message`. */
    method OnIntentParsed(payload: map<string, JValue>) returns (r: Result<Reply>)
      modifies this
      ensures Snapshot() == IntentParsedStep(old(Snapshot()), payload).state
      ensures r == IntentParsedStep(old(Snapshot()), payload).reply
    {
      var intent := IntentName(payload);
      if intent.Err? {
        return Err(intent.error);
      }
      currentIntent := intent.value;
      intentReceived := true;
      if targetIntent.Some? {
        testLog := testLog[currentFile := EvalLog.Entry(currentSentence, currentIntent, targetIntent.value)];
      }
      r := Ok(Handled);
    }

    /** The textCaptured branch of `on_message`. */
    method OnTextCaptured(payload: map<string, JValue>) returns (r: Result<Reply>)
      modifies this
      ensures Snapshot() == TextCapturedStep(old(Snapshot()), payload).state
      ensures r == TextCapturedStep(old(Snapshot()), payload).reply
    {
      var text := Subscript(JObject(payload), "text");
      if text.Err? {
        return Err(text.error);
      }
      currentSentence := text.value;
      outbox := outbox + [NluQueryPublish(currentSentence, siteId)];
      r := Ok(Handled);
    }

    /** The bounded poll of `intent_received`: how many 50 ms sleeps it takes before giving up or seeing the flag. */
    method AwaitIntent() returns (sleeps: nat, timedOut: bool)
      ensures sleeps <= PollLimit
      ensures timedOut <==> !intentReceived
      ensures sleeps == if intentReceived then 0 else PollLimit
    {
      sleeps := 0;
      var i := 0;
      while i < PollLimit
        invariant 0 <= i <= PollLimit && sleeps == i
        invariant intentReceived ==> i == 0
      {
        if intentReceived {
          break;
        }
        sleeps := sleeps + 1;
        i := i + 1;
      }
      timedOut := !intentReceived;
    }

    /** One directory entry of `evaluation_loop`. */
    method EvaluateEntry(path: string, entry: DirEntry, replies: seq<Message>) returns (r: Result<()>)
      modifies this
      ensures Snapshot() == EntryStep(old(Snapshot()), path, entry, replies).state
      ensures r == EntryStep(old(Snapshot()), path, entry, replies).result
    {
      ghost var s0 := Snapshot();
      if IsAudioFile(entry.name) {
        var target := TargetLabel(entry.name);
        if target.Err? {
          assert EntryStep(s0, path, entry, replies) == EntryOutcome(s0, Err(target.error));
          return Err(target.error);
        }
        BeginTurn(path, entry, target.value);
        ghost var start := Snapshot();
        Deliver(replies);
        ghost var delivered := Snapshot();
        var _, _ := AwaitIntent();
        assert Snapshot() == delivered;
        intentReceived := false;
        assert Snapshot() == delivered.(intentReceived := false);
        assert EntryStep(s0, path, entry, replies) == EntryOutcome(Run(start, replies).(intentReceived := false), Ok(()));
      } else {
        assert EntryStep(s0, path, entry, replies) == EntryOutcome(s0, Ok(()));
      }
      r := Ok(());
    }

    /** Set the target and the current file and publish the turn's three requests. */
    method BeginTurn(path: string, entry: DirEntry, target: string)
      modifies this
      ensures Snapshot() == TurnStart(old(Snapshot()), path, entry, target)
    {
      ghost var s0 := Snapshot();
      var publishes := TurnPublishes(siteId, sessionId, entry.data);
      assert publishes == TurnPublishes(s0.siteId, s0.sessionId, entry.data);
      targetIntent := Some(target);
      currentFile := JoinPath(path, entry.name);
      outbox := outbox + publishes;
    }

    /** The messages the network thread hands to `on_message` while a turn waits, one at a time. */
    method Deliver(replies: seq<Message>)
      modifies this
      ensures Snapshot() == Run(old(Snapshot()), replies)
    {
      ghost var start := Snapshot();
      var k := 0;
      while k < |replies|
        invariant 0 <= k <= |replies|
        invariant Run(start, replies) == Run(Snapshot(), replies[k..])
      {
        ghost var before := Snapshot();
        assert replies[k..][1..] == replies[k + 1..];
        assert Run(before, replies[k..]) == Run(Step(before, replies[k]).state, replies[k + 1..]);
        var _ := OnMessage(replies[k]);
        k := k + 1;
      }
      assert Run(Snapshot(), replies[k..]) == Snapshot();
    }

    /** `evaluation_loop(path)` over the listing `entries`. */
    method EvaluationLoop(path: string, entries: seq<DirEntry>, replies: seq<seq<Message>>)
      returns (r: Result<()>)
      requires |replies| == |entries|
      modifies this
      ensures Snapshot() == Evaluate(old(Snapshot()), path, entries, replies).state
      ensures r == Evaluate(old(Snapshot()), path, entries, replies).result
    {
      var i := 0;
      while i < |entries|
        invariant 0 <= i <= |entries|
        invariant Evaluate(old(Snapshot()), path, entries[..i], replies[..i])
                  == EntryOutcome(Snapshot(), Ok(()))
      {
        EvaluateExtend(old(Snapshot()), path, entries, replies, i);
        r := EvaluateEntry(path, entries[i], replies[i]);
        if r.Err? {
          assert entries[..i + 1] == entries[..i] + [entries[i]];
          EvaluatePrefixError(old(Snapshot()), path, entries, replies, i + 1);
          return;
        }
        i := i + 1;
      }
      assert entries[..i] == entries && replies[..i] == replies;
      r := Ok(());
    }

    /** `accuracy()` */
    method Accuracy() returns (r: Result<real>)
      ensures r == EvalLog.AccuracyOf(testLog)
    {
      r := EvalLog.Accuracy(testLog);
    }
  }

  /** One more entry of the listing: the loop over `i + 1` entries is the loop over `i` and then that entry. */
  lemma EvaluateExtend(s: State, path: string, entries: seq<DirEntry>, replies: seq<seq<Message>>, i: nat)
    requires |replies| == |entries| && i < |entries|
    ensures var before := Evaluate(s, path, entries[..i], replies[..i]);
            Evaluate(s, path, entries[..i + 1], replies[..i + 1])
              == if before.result.Err? then before else EntryStep(before.state, path, entries[i], replies[i])
  {
    assert entries[..i + 1][..i] == entries[..i] && replies[..i + 1][..i] == replies[..i];
  }

  /** Once a prefix of the listing raises, the whole loop ends with that exception. */
  lemma {:induction false} EvaluatePrefixError(s: State, path: string, entries: seq<DirEntry>,
                                               replies: seq<seq<Message>>, i: nat)
    requires |replies| == |entries| && 0 < i <= |entries|
    requires Evaluate(s, path, entries[..i], replies[..i]).result.Err?
    ensures Evaluate(s, path, entries, replies) == Evaluate(s, path, entries[..i], replies[..i])
    decreases |entries| - i
  {
    if i < |entries| {
      var n := |entries| - 1;
      assert entries[..n][..i] == entries[..i] && replies[..n][..i] == replies[..i];
      EvaluatePrefixError(s, path, entries[..n], replies[..n], i);
    } else {
      assert entries[..i] == entries && replies[..i] == replies;
    }
  }
}
