/**
 * The `Broker` of dogtest.py, the earlier evaluation client: `on_message`
 * decodes every payload before filtering on its `siteId`, dispatches on three
 * exact topics only, and `evaluation_loop` gives the i-th directory entry the
 * session `session<i>` and waits for an intent without a time limit.
 */
module DogTest {
  import opened PyStr
  import opened PyValues
  import opened Topics
  import opened AudioFiles
  import opened Requests
  import EvalLog

  /** What `on_message` returns: `False` when the site filter drops the message, otherwise `None`. */
  datatype Reply = NotForMe | Handled

  /** The branch of `on_message` a topic selects; every other topic is ignored. */
  datatype Handler = IntentParsedHandler | IntentNotRecognizedHandler | TextCapturedHandler | NoHandler

  function Dispatch(topic: string): (h: Handler)
    ensures h == IntentParsedHandler <==> topic == IntentRecognized
    ensures h == IntentNotRecognizedHandler <==> topic == IntentNotRecognized
    ensures h == TextCapturedHandler <==> topic == TextCaptured
  {
    if topic == IntentRecognized then IntentParsedHandler
    else if topic == IntentNotRecognized then IntentNotRecognizedHandler
    else if topic == TextCaptured then TextCapturedHandler
    else NoHandler
  }

  /** `json.loads(msg.payload.decode('UTF-8'))` for a non-empty payload, `{}` otherwise. */
  function Decode(body: Body): Result<map<string, JValue>> {
    match body
    case Empty => Ok(map[])
    case Binary(_) => Err(UnicodeDecodeError)
    case Json(obj) => Ok(obj)
  }

  /** `payload.get('siteId') == self.site_id` */
  predicate ForMe(siteId: Option<string>, payload: map<string, JValue>) {
    EqualsOptStr(Get(payload, "siteId"), siteId)
  }

  datatype State = State(
    siteId: Option<string>,
    currentFile: string,
    currentSentence: JValue,
    currentIntent: JValue,
    targetIntent: Option<string>,
    intentReceived: bool,
    testLog: EvalLog.Log,
    outbox: seq<Publish>)

  /** The state right after `__init__` (the MQTT client and its connection are not modelled). */
  function Initial(siteId: Option<string>): State {
    State(siteId, "", JStr(""), JStr(""), Some(""), false, map[], [])
  }

  datatype Outcome = Outcome(state: State, reply: Result<Reply>)

  function IntentParsedStep(s: State, payload: map<string, JValue>): Outcome {
    match IntentName(payload)
    case Err(e) => Outcome(s, Err(e))
    case Ok(intent) =>
      var s1 := s.(currentIntent := intent, intentReceived := true);
      if s.targetIntent.Some? then
        Outcome(s1.(testLog := s.testLog[s.currentFile :=
                               EvalLog.Entry(s.currentSentence, intent, s.targetIntent.value)]),
                Ok(Handled))
      else Outcome(s1, Ok(Handled))
  }

  function TextCapturedStep(s: State, payload: map<string, JValue>): Outcome {
    match Subscript(JObject(payload), "text")
    case Err(e) => Outcome(s, Err(e))
    case Ok(text) =>
      Outcome(s.(currentSentence := text, outbox := s.outbox + [NluQueryPublish(text, s.siteId)]),
              Ok(Handled))
  }

  function Handle(s: State, payload: map<string, JValue>, h: Handler): Outcome {
    match h
    case IntentParsedHandler => IntentParsedStep(s, payload)
    case IntentNotRecognizedHandler => Outcome(s.(intentReceived := true), Ok(Handled))
    case TextCapturedHandler => TextCapturedStep(s, payload)
    case NoHandler => Outcome(s, Ok(Handled))
  }

  /** The effect of one call of `on_message`. */
  function Step(s: State, msg: Message): Outcome {
    match Decode(msg.body)
    case Err(e) => Outcome(s, Err(e))
    case Ok(payload) =>
      if !ForMe(s.siteId, payload) then Outcome(s, Ok(NotForMe))
      else Handle(s, payload, Dispatch(msg.topic))
  }

  function Run(s: State, msgs: seq<Message>): State
    decreases |msgs|
  {
    if msgs == [] then s else Run(Step(s, msgs[0]).state, msgs[1..])
  }

  /**
   * A message is dropped exactly when its payload decodes and names another
   * site (or none, for a configured site); a payload that is not UTF-8 raises
   * before the filter. Either way the state is unchanged.
   */
  lemma SiteFilter(s: State, msg: Message)
    ensures Step(s, msg).reply == Ok(NotForMe) <==>
              !msg.body.Binary? && !ForMe(s.siteId, Decode(msg.body).value)
    ensures msg.body.Binary? ==> Step(s, msg) == Outcome(s, Err(UnicodeDecodeError))
    ensures Step(s, msg).reply == Ok(NotForMe) ==> Step(s, msg).state == s
  {
    if !msg.body.Binary? && ForMe(s.siteId, Decode(msg.body).value) {
      var payload := Decode(msg.body).value;
      match Dispatch(msg.topic)
      case IntentParsedHandler =>
        assert Step(s, msg) == IntentParsedStep(s, payload);
      case TextCapturedHandler =>
        assert Step(s, msg) == TextCapturedStep(s, payload);
      case _ =>
    }
  }

  /** With a site configured, a message without payload never passes the filter. */
  lemma EmptyPayloadDropped(s: State, topic: string)
    ensures Step(s, Message(topic, Empty)).reply == Ok(NotForMe) <==> s.siteId.Some?
  {
    SiteFilter(s, Message(topic, Empty));
  }

  /**
   * intentParsed for this site records the intent, raises the flag and, with a
   * target set, overwrites the log entry of the current file only.
   */
  lemma IntentParsedLogsCurrentFile(s: State, payload: map<string, JValue>)
    requires ForMe(s.siteId, payload)
    requires IntentName(payload).Ok? && s.targetIntent.Some?
    ensures var t := Step(s, Message(IntentRecognized, Json(payload))).state;
            var intent := IntentName(payload).value;
            && t.currentIntent == intent && t.intentReceived
            && t.testLog.Keys == s.testLog.Keys + {s.currentFile}
            && t.testLog[s.currentFile] == EvalLog.Entry(s.currentSentence, intent, s.targetIntent.value)
            && (forall f :: f in s.testLog && f != s.currentFile ==> t.testLog[f] == s.testLog[f])
            && t.(currentIntent := s.currentIntent, intentReceived := s.intentReceived,
                  testLog := s.testLog) == s
  {
  }

  /** intentNotRecognized for this site only raises the flag. */
  lemma IntentNotRecognizedOnlyFlags(s: State, payload: map<string, JValue>)
    requires ForMe(s.siteId, payload)
    ensures Step(s, Message(IntentNotRecognized, Json(payload))) == Outcome(s.(intentReceived := true), Ok(Handled))
  {
  }

  /** textCaptured for this site publishes one NLU query carrying the text unchanged. */
  lemma TextCapturedQueriesVerbatim(s: State, payload: map<string, JValue>)
    requires ForMe(s.siteId, payload) && "text" in payload
    ensures var t := Step(s, Message(TextCaptured, Json(payload))).state;
            && t.currentSentence == payload["text"]
            && |t.outbox| == |s.outbox| + 1 && t.outbox[..|s.outbox|] == s.outbox
            && t.outbox[|s.outbox|].topic == NluQuery
            && Subscript(t.outbox[|s.outbox|].payload.value, "input") == Ok(payload["text"])
            && Subscript(t.outbox[|s.outbox|].payload.value, "siteId") == Ok(OptStr(s.siteId))
  {
  }

  /** Any other topic, the hotword and intent topics included, changes nothing. */
  lemma OtherTopicsIgnored(s: State, msg: Message)
    requires Dispatch(msg.topic) == NoHandler && !msg.body.Binary?
    ensures Step(s, msg).state == s && Step(s, msg).reply.Ok?
  {
  }

  // ---------------------------------------------------------------------------
  // evaluation_loop

  /** `f'session{i}'` */
  function SessionName(i: nat): string {
    "session" + NatToStr(i)
  }

  /** Different directory positions get different session names. */
  lemma SessionNamesDistinct(i: nat, j: nat)
    ensures SessionName(i) == SessionName(j) <==> i == j
  {
    if SessionName(i) == SessionName(j) {
      assert NatToStr(i) == SessionName(i)[7..];
      assert NatToStr(j) == SessionName(j)[7..];
      NatToStrInjective(i, j);
    }
  }

  /** How one directory entry ends: completed, raised, or stuck waiting for an intent. */
  datatype TurnEnd = Done | Raised(error: PyError) | Hangs

  datatype EntryOutcome = EntryOutcome(state: State, end: TurnEnd)

  function TurnStart(s: State, path: string, entry: DirEntry, target: string, session: string): State {
    s.(targetIntent := Some(target), currentFile := JoinPath(path, entry.name),
       outbox := s.outbox + TurnPublishes(s.siteId, session, entry.data))
  }

  /**
   * Entry `i` of the listing. `replies` are the messages delivered while the
   * turn waits; if none of them raised the flag, `while not intent_received`
   * never ends.
   */
  function EntryStep(s: State, path: string, i: nat, entry: DirEntry, replies: seq<Message>): EntryOutcome {
    if !IsAudioFile(entry.name) then EntryOutcome(s, Done)
    else
      match TargetLabel(entry.name)
      case Err(e) => EntryOutcome(s, Raised(e))
      case Ok(target) =>
        var t := Run(TurnStart(s, path, entry, target, SessionName(i)), replies);
        if t.intentReceived then EntryOutcome(t.(intentReceived := false), Done)
        else EntryOutcome(t, Hangs)
  }

  /** `evaluation_loop` over the listing; it ends at the first entry that raises or hangs. */
  function Evaluate(s: State, path: string, entries: seq<DirEntry>, replies: seq<seq<Message>>): EntryOutcome
    requires |replies| == |entries|
    decreases |entries|
  {
    if entries == [] then EntryOutcome(s, Done)
    else
      var n := |entries| - 1;
      var before := Evaluate(s, path, entries[..n], replies[..n]);
      if !before.end.Done? then before
      else EntryStep(before.state, path, n, entries[n], replies[n])
  }

  /** A publish that opens a session. */
  predicate IsSessionStart(p: Publish) {
    && p.topic == StartListening
    && p.payload.JsonPayload? && p.payload.value.JObject?
    && "sessionId" in p.payload.value.fields
  }

  /** The sessions opened in `ps`, in order. */
  function StartedSessions(ps: seq<Publish>): seq<JValue>
    decreases |ps|
  {
    if ps == [] then []
    else
      var last := ps[|ps| - 1];
      StartedSessions(ps[..|ps| - 1]) +
        (if IsSessionStart(last) then [last.payload.value.fields["sessionId"]] else [])
  }

  lemma {:induction false} StartedSessionsAppend(a: seq<Publish>, b: seq<Publish>)
    ensures StartedSessions(a + b) == StartedSessions(a) + StartedSessions(b)
    decreases |b|
  {
    if b != [] {
      var n := |b| - 1;
      assert (a + b)[..|a + b| - 1] == a + b[..n];
      StartedSessionsAppend(a, b[..n]);
    } else {
      assert a + b == a;
    }
  }

  /** The sessions the loop should open: `session<i>` for every audio file at position i. */
  function AudioSessions(entries: seq<DirEntry>): seq<JValue>
    decreases |entries|
  {
    if entries == [] then []
    else
      var n := |entries| - 1;
      AudioSessions(entries[..n]) + (if IsAudioFile(entries[n].name) then [JStr(SessionName(n))] else [])
  }

  predicate Distinct(xs: seq<JValue>) {
    forall i, j :: 0 <= i < j < |xs| ==> xs[i] != xs[j]
  }

  /** `v` is the name of a session opened for a position below `n`. */
  predicate SessionBelow(v: JValue, n: nat) {
    exists m: nat :: m < n && v == JStr(SessionName(m))
  }

  /** The sessions of the audio files are pairwise different. */
  lemma {:induction false} AudioSessionsDistinct(entries: seq<DirEntry>)
    ensures Distinct(AudioSessions(entries))
    ensures forall k :: 0 <= k < |AudioSessions(entries)| ==> SessionBelow(AudioSessions(entries)[k], |entries|)
    decreases |entries|
  {
    if entries != [] {
      var n := |entries| - 1;
      var prev := AudioSessions(entries[..n]);
      AudioSessionsDistinct(entries[..n]);
      var all := AudioSessions(entries);
      forall k | 0 <= k < |all|
        ensures SessionBelow(all[k], |entries|)
      {
        if k < |prev| {
          assert all[k] == prev[k];
          var m: nat :| m < n && prev[k] == JStr(SessionName(m));
          assert m < |entries|;
        } else {
          assert all[k] == JStr(SessionName(n));
        }
      }
      forall i, j | 0 <= i < j < |all|
        ensures all[i] != all[j]
      {
        if j >= |prev| {
          assert all[j] == JStr(SessionName(n)) && all[i] == prev[i];
          var m: nat :| m < n && prev[i] == JStr(SessionName(m));
          SessionNamesDistinct(m, n);
        }
      }
    }
  }

  lemma HandleOpensNoSession(s: State, payload: map<string, JValue>, h: Handler)
    ensures StartedSessions(Handle(s, payload, h).state.outbox) == StartedSessions(s.outbox)
  {
    if h == TextCapturedHandler && "text" in payload {
      var q := NluQueryPublish(payload["text"], s.siteId);
      StartedSessionsAppend(s.outbox, [q]);
      assert [q][..0] == [];
    }
  }

  /** The handlers publish no startListening: only the loop opens sessions. */
  lemma {:induction false} RunOpensNoSession(s: State, msgs: seq<Message>)
    ensures StartedSessions(Run(s, msgs).outbox) == StartedSessions(s.outbox)
    decreases |msgs|
  {
    if msgs != [] {
      var d := Decode(msgs[0].body);
      if d.Ok? && ForMe(s.siteId, d.value) {
        HandleOpensNoSession(s, d.value, Dispatch(msgs[0].topic));
      }
      RunOpensNoSession(Step(s, msgs[0]).state, msgs[1..]);
    }
  }

  lemma TurnOpensOneSession(s: State, path: string, entry: DirEntry, target: string, session: string)
    ensures StartedSessions(TurnStart(s, path, entry, target, session).outbox)
              == StartedSessions(s.outbox) + [JStr(session)]
  {
    var ps := TurnPublishes(s.siteId, session, entry.data);
    StartedSessionsAppend(s.outbox, ps);
    assert IsSessionStart(ps[0]) && ps[0].payload.value.fields["sessionId"] == JStr(session);
    assert !IsSessionStart(ps[1]) && !IsSessionStart(ps[2]);
    assert ps[..1][..0] == [];
    assert StartedSessions(ps[..1]) == [JStr(session)];
    assert ps[..2][..1] == ps[..1];
    assert StartedSessions(ps[..2]) == [JStr(session)];
    assert ps[..2] == ps[..|ps| - 1];
    assert StartedSessions(ps) == [JStr(session)];
  }

  /**
   * A loop that completes opens exactly one session per audio file, named after
   * the file's position in the listing, in listing order — hence all different.
   */
  lemma {:induction false} EvaluateOpensOneSessionPerFile(s: State, path: string, entries: seq<DirEntry>,
                                                          replies: seq<seq<Message>>)
    requires |replies| == |entries|
    requires Evaluate(s, path, entries, replies).end == Done
    ensures StartedSessions(Evaluate(s, path, entries, replies).state.outbox)
              == StartedSessions(s.outbox) + AudioSessions(entries)
    decreases |entries|
  {
    if entries != [] {
      var n := |entries| - 1;
      var before := Evaluate(s, path, entries[..n], replies[..n]);
      EvaluateOpensOneSessionPerFile(s, path, entries[..n], replies[..n]);
      if IsAudioFile(entries[n].name) {
        var target := TargetLabel(entries[n].name).value;
        var start := TurnStart(before.state, path, entries[n], target, SessionName(n));
        TurnOpensOneSession(before.state, path, entries[n], target, SessionName(n));
        RunOpensNoSession(start, replies[n]);
      }
    }
  }

  /**
   * A non-audio entry is skipped (its index, and so its session name, is still
   * used up); an audio file without `-` raises IndexError before anything is published.
   */
  lemma EntryLabelOutcomes(s: State, path: string, i: nat, entry: DirEntry, replies: seq<Message>)
    ensures !IsAudioFile(entry.name) ==> EntryStep(s, path, i, entry, replies) == EntryOutcome(s, Done)
    ensures IsAudioFile(entry.name) && '-' !in entry.name ==>
              EntryStep(s, path, i, entry, replies) == EntryOutcome(s, Raised(IndexError))
  {
  }

  /** A turn that hears nothing back for its site never ends. */
  lemma SilentTurnHangs(s: State, path: string, i: nat, entry: DirEntry)
    requires IsAudioFile(entry.name) && '-' in entry.name && !s.intentReceived
    ensures EntryStep(s, path, i, entry, []).end == Hangs
  {
  }

  /**
   * A turn answered by an intentParsed for this site completes, logs the file
   * under its joined path with the predicted intent and the label from its
   * name, and ends with the flag down.
   */
  lemma AnsweredTurnLogs(s: State, path: string, i: nat, entry: DirEntry, payload: map<string, JValue>)
    requires IsAudioFile(entry.name) && '-' in entry.name
    requires ForMe(s.siteId, payload) && IntentName(payload).Ok?
    ensures var t := EntryStep(s, path, i, entry, [Message(IntentRecognized, Json(payload))]);
            && t.end == Done && !t.state.intentReceived
            && JoinPath(path, entry.name) in t.state.testLog
            && t.state.testLog[JoinPath(path, entry.name)]
                 == EvalLog.Entry(s.currentSentence, IntentName(payload).value, TargetLabel(entry.name).value)
  {
    var target := TargetLabel(entry.name).value;
    var start := TurnStart(s, path, entry, target, SessionName(i));
    var msgs := [Message(IntentRecognized, Json(payload))];
    assert Run(start, msgs) == Run(Step(start, msgs[0]).state, []);
    assert Step(start, msgs[0]) == IntentParsedStep(start, payload);
  }

  /**
   * A reply that raises `intent_received`: it decodes, is for this site, and is
   * either intentNotRecognized or an intentParsed whose payload names an intent.
   */
  predicate Answers(siteId: Option<string>, msg: Message) {
    && Decode(msg.body).Ok?
    && ForMe(siteId, Decode(msg.body).value)
    && (|| Dispatch(msg.topic) == IntentNotRecognizedHandler
        || (Dispatch(msg.topic) == IntentParsedHandler && IntentName(Decode(msg.body).value).Ok?))
  }

  /** Some message of `msgs` answers. */
  predicate AnyAnswers(siteId: Option<string>, msgs: seq<Message>)
    decreases |msgs|
  {
    msgs != [] && (Answers(siteId, msgs[0]) || AnyAnswers(siteId, msgs[1..]))
  }

  lemma {:induction false} AnyAnswersAt(siteId: Option<string>, msgs: seq<Message>)
    ensures AnyAnswers(siteId, msgs) <==> exists k :: 0 <= k < |msgs| && Answers(siteId, msgs[k])
    decreases |msgs|
  {
    if msgs != [] {
      AnyAnswersAt(siteId, msgs[1..]);
      if exists k :: 0 <= k < |msgs| && Answers(siteId, msgs[k]) {
        var k :| 0 <= k < |msgs| && Answers(siteId, msgs[k]);
        if k > 0 {
          assert msgs[1..][k - 1] == msgs[k];
        }
      }
      if AnyAnswers(siteId, msgs[1..]) {
        var k :| 0 <= k < |msgs| - 1 && Answers(siteId, msgs[1..][k]);
        assert msgs[k + 1] == msgs[1..][k];
      }
    }
  }

  /** One reply raises the flag exactly when it answers, and leaves site, target and file alone. */
  lemma StepRaisesFlag(s: State, msg: Message)
    ensures Step(s, msg).state.intentReceived <==> s.intentReceived || Answers(s.siteId, msg)
    ensures Step(s, msg).state.siteId == s.siteId
    ensures Step(s, msg).state.targetIntent == s.targetIntent
    ensures Step(s, msg).state.currentFile == s.currentFile
  {
  }

  /**
   * Over any replies, the flag ends up raised exactly when it already was or
   * some reply answers; the site, the target and the current file stay as they were.
   */
  lemma {:induction false} RunRaisesFlag(s: State, msgs: seq<Message>)
    ensures Run(s, msgs).intentReceived <==> s.intentReceived || AnyAnswers(s.siteId, msgs)
    ensures Run(s, msgs).siteId == s.siteId
    ensures Run(s, msgs).targetIntent == s.targetIntent && Run(s, msgs).currentFile == s.currentFile
    decreases |msgs|
  {
    if msgs != [] {
      StepRaisesFlag(s, msgs[0]);
      RunRaisesFlag(Step(s, msgs[0]).state, msgs[1..]);
    }
  }

  /**
   * An audio file with a label ends its turn exactly when the flag was already
   * up or some reply answers, and otherwise waits forever; a completed turn
   * leaves the flag down and the file and its label as the current ones.
   */
  lemma EntryEnds(s: State, path: string, i: nat, entry: DirEntry, replies: seq<Message>)
    requires IsAudioFile(entry.name) && '-' in entry.name
    ensures var t := EntryStep(s, path, i, entry, replies);
            && (t.end == Done <==> s.intentReceived || exists k :: 0 <= k < |replies| && Answers(s.siteId, replies[k]))
            && (t.end == Done || t.end == Hangs)
            && (t.end == Done ==>
                  && !t.state.intentReceived
                  && t.state.targetIntent == Some(TargetLabel(entry.name).value)
                  && t.state.currentFile == JoinPath(path, entry.name))
  {
    RunRaisesFlag(TurnStart(s, path, entry, TargetLabel(entry.name).value, SessionName(i)), replies);
    AnyAnswersAt(s.siteId, replies);
  }

  // ---------------------------------------------------------------------------
  // The object

  class Broker {
    var siteId: Option<string>
    var currentFile: string
    var currentSentence: JValue
    var currentIntent: JValue
    var targetIntent: Option<string>
    var intentReceived: bool
    var testLog: EvalLog.Log
    var outbox: seq<Publish>

    function Snapshot(): State
      reads this
    {
      State(siteId, currentFile, currentSentence, currentIntent, targetIntent, intentReceived, testLog, outbox)
    }

    constructor (siteId: Option<string>)
      ensures Snapshot() == Initial(siteId)
    {
      this.siteId := siteId;
      currentFile := "";
      currentSentence := JStr("");
      currentIntent := JStr("");
      targetIntent := Some("");
      intentReceived := false;
      testLog := map[];
      outbox := [];
    }

    /** `on_message`: decoding and the site filter, then the handler. */
    method OnMessage(msg: Message) returns (r: Result<Reply>)
      modifies this
      ensures Snapshot() == Step(old(Snapshot()), msg).state
      ensures r == Step(old(Snapshot()), msg).reply
    {
      var payload: map<string, JValue> := map[];
      if !msg.body.Empty? {
        if msg.body.Binary? {
          return Err(UnicodeDecodeError);
        }
        payload := msg.body.obj;
      }
      var siteIdValue := Get(payload, "siteId");
      var isForMe := EqualsOptStr(siteIdValue, siteId);
      if !isForMe {
        return Ok(NotForMe);
      }
      assert Decode(msg.body) == Ok(payload);
      r := Dispatched(msg.topic, payload);
    }

    method Dispatched(topic: string, payload: map<string, JValue>) returns (r: Result<Reply>)
      modifies this
      ensures Snapshot() == Handle(old(Snapshot()), payload, Dispatch(topic)).state
      ensures r == Handle(old(Snapshot()), payload, Dispatch(topic)).reply
    {
      ghost var s0 := Snapshot();
      ghost var h := Dispatch(topic);
      if topic == IntentRecognized {
        assert Handle(s0, payload, h) == IntentParsedStep(s0, payload);
        r := OnIntentParsed(payload);
      } else if topic == IntentNotRecognized {
        assert Handle(s0, payload, h) == Outcome(s0.(intentReceived := true), Ok(Handled));
        intentReceived := true;
        r := Ok(Handled);
      } else if topic == TextCaptured {
        assert Handle(s0, payload, h) == TextCapturedStep(s0, payload);
        r := OnTextCaptured(payload);
      } else {
        assert Handle(s0, payload, h) == Outcome(s0, Ok(Handled));
        r := Ok(Handled);
      }
    }

    method OnIntentParsed(payload: map<string, JValue>) returns (r: Result<Reply>)
      modifies this
      ensures Snapshot() == IntentParsedStep(old(Snapshot()), payload).state
      ensures r == IntentParsedStep(old(Snapshot()), payload).reply
    {
      var intent := IntentName(payload);
      if intent.Err? {
        return Err(intent.error);
      }
      currentIntent := intent.value;
      intentReceived := true;
      if targetIntent.Some? {
        testLog := testLog[currentFile := EvalLog.Entry(currentSentence, currentIntent, targetIntent.value)];
      }
      r := Ok(Handled);
    }

    method OnTextCaptured(payload: map<string, JValue>) returns (r: Result<Reply>)
      modifies this
      ensures Snapshot() == TextCapturedStep(old(Snapshot()), payload).state
      ensures r == TextCapturedStep(old(Snapshot()), payload).reply
    {
      var text := Subscript(JObject(payload), "text");
      if text.Err? {
        return Err(text.error);
      }
      currentSentence := text.value;
      outbox := outbox + [NluQueryPublish(currentSentence, siteId)];
      r := Ok(Handled);
    }

    method BeginTurn(path: string, entry: DirEntry, target: string, session: string)
      modifies this
      ensures Snapshot() == TurnStart(old(Snapshot()), path, entry, target, session)
    {
      targetIntent := Some(target);
      currentFile := JoinPath(path, entry.name);
      outbox := outbox + TurnPublishes(siteId, session, entry.data);
    }

    /** The messages the network thread hands to `on_message` while a turn waits. */
    method Deliver(replies: seq<Message>)
      modifies this
      ensures Snapshot() == Run(old(Snapshot()), replies)
    {
      ghost var start := Snapshot();
      var k := 0;
      while k < |replies|
        invariant 0 <= k <= |replies|
        invariant Run(start, replies) == Run(Snapshot(), replies[k..])
      {
        ghost var before := Snapshot();
        assert replies[k..][1..] == replies[k + 1..];
        assert Run(before, replies[k..]) == Run(Step(before, replies[k]).state, replies[k + 1..]);
        var _ := OnMessage(replies[k]);
        k := k + 1;
      }
      assert Run(Snapshot(), replies[k..]) == Snapshot();
    }

    /**
     * `while not self.intent_received: time.sleep(0.05)`: with no further
     * message arriving, a lowered flag means the wait never ends.
     */
    method AwaitIntent() returns (hangs: bool)
      ensures hangs <==> !intentReceived
    {
      hangs := !intentReceived;
    }

    /** Entry `i` of `evaluation_loop`. */
    method EvaluateEntry(path: string, i: nat, entry: DirEntry, replies: seq<Message>) returns (end: TurnEnd)
      modifies this
      ensures Snapshot() == EntryStep(old(Snapshot()), path, i, entry, replies).state
      ensures end == EntryStep(old(Snapshot()), path, i, entry, replies).end
    {
      ghost var s0 := Snapshot();
      var session := "session" + NatToStr(i);
      if IsAudioFile(entry.name) {
        var target := TargetLabel(entry.name);
        if target.Err? {
          assert EntryStep(s0, path, i, entry, replies) == EntryOutcome(s0, Raised(target.error));
          return Raised(target.error);
        }
        BeginTurn(path, entry, target.value, session);
        ghost var start := Snapshot();
        Deliver(replies);
        ghost var delivered := Snapshot();
        var hangs := AwaitIntent();
        assert Snapshot() == delivered;
        if hangs {
          assert EntryStep(s0, path, i, entry, replies) == EntryOutcome(Run(start, replies), Hangs);
          return Hangs;
        }
        intentReceived := false;
        assert Snapshot() == delivered.(intentReceived := false);
        assert EntryStep(s0, path, i, entry, replies)
               == EntryOutcome(Run(start, replies).(intentReceived := false), Done);
      } else {
        assert EntryStep(s0, path, i, entry, replies) == EntryOutcome(s0, Done);
      }
      end := Done;
    }

    /** `evaluation_loop(path)` over the listing `entries`. */
    method EvaluationLoop(path: string, entries: seq<DirEntry>, replies: seq<seq<Message>>)
      returns (end: TurnEnd)
      requires |replies| == |entries|
      modifies this
      ensures Snapshot() == Evaluate(old(Snapshot()), path, entries, replies).state
      ensures end == Evaluate(old(Snapshot()), path, entries, replies).end
    {
      var i := 0;
      while i < |entries|
        invariant 0 <= i <= |entries|
        invariant Evaluate(old(Snapshot()), path, entries[..i], replies[..i]) == EntryOutcome(Snapshot(), Done)
      {
        assert entries[..i + 1][..i] == entries[..i] && replies[..i + 1][..i] == replies[..i];
        end := EvaluateEntry(path, i, entries[i], replies[i]);
        if !end.Done? {
          EvaluatePrefixStops(old(Snapshot()), path, entries, replies, i + 1);
          return;
        }
        i := i + 1;
      }
      assert entries[..i] == entries && replies[..i] == replies;
      end := Done;
    }

    /** `accuracy()` */
    method Accuracy() returns (r: Result<real>)
      ensures r == EvalLog.AccuracyOf(testLog)
    {
      r := EvalLog.Accuracy(testLog);
    }
  }

  /** Once a prefix of the listing raises or hangs, the whole loop ends there. */
  lemma {:induction false} EvaluatePrefixStops(s: State, path: string, entries: seq<DirEntry>,
                                               replies: seq<seq<Message>>, i: nat)
    requires |replies| == |entries| && 0 < i <= |entries|
    requires !Evaluate(s, path, entries[..i], replies[..i]).end.Done?
    ensures Evaluate(s, path, entries, replies) == Evaluate(s, path, entries[..i], replies[..i])
    decreases |entries| - i
  {
    if i < |entries| {
      var n := |entries| - 1;
      assert entries[..n][..i] == entries[..i] && replies[..n][..i] == replies[..i];
      EvaluatePrefixStops(s, path, entries[..n], replies[..n], i);
    } else {
      assert entries[..i] == entries && replies[..i] == replies;
    }
  }
}
