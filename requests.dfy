/**
 * The requests both evaluation brokers publish and the payload field they read
 * back: the NLU query for captured text, the three requests of a test turn, and
 * the intent name of an intentParsed payload.
 */
module Requests {
  import opened PyValues
  import opened Topics

  /** `payload['intent']['intentName']` */
  function IntentName(payload: map<string, JValue>): Result<JValue> {
    var intent :- Subscript(JObject(payload), "intent");
    Subscript(intent, "intentName")
  }

  /** `json.dumps({'input': text, 'siteId': site_id})` published on hermes/nlu/query. */
  function NluQueryPublish(text: JValue, siteId: Option<string>): Publish {
    Publish(NluQuery, JsonPayload(JObject(map["input" := text, "siteId" := OptStr(siteId)])))
  }

  /** The text `f'{self.site_id}'` gives. */
  function SiteText(siteId: Option<string>): string {
    match siteId
    case None => "None"
    case Some(x) => x
  }

  /** The three publishes of one test turn: startListening, the audio bytes, stopListening. */
  function TurnPublishes(siteId: Option<string>, sessionId: string, audio: seq<bv8>): seq<Publish> {
    [ Publish(StartListening, JsonPayload(JObject(map[
        "siteId" := OptStr(siteId),
        "sessionId" := JStr(sessionId),
        "stopOnSilence" := JBool(false),
        "sendAudioCaptured" := JBool(true)]))),
      Publish("hermes/audioServer/" + SiteText(siteId) + "/audioFrame", RawBytes(audio)),
      Publish(StopListening, JsonPayload(JObject(map[
        "siteId" := OptStr(siteId),
        "sessionId" := JStr(sessionId)]))) ]
  }

  /** A JSON payload that names a session names `sessionId`. */
  predicate NamesOnly(p: Publish, sessionId: string) {
    (p.payload.JsonPayload? && p.payload.value.JObject? && "sessionId" in p.payload.value.fields) ==>
      p.payload.value.fields["sessionId"] == JStr(sessionId)
  }

  /**
   * A turn opens and closes the session it is given on the site, and sends the
   * file's bytes unchanged in between.
   */
  lemma TurnPublishesNameSession(siteId: Option<string>, sessionId: string, audio: seq<bv8>)
    ensures var ps := TurnPublishes(siteId, sessionId, audio);
            && ps[0].topic == StartListening && ps[2].topic == StopListening
            && Subscript(ps[0].payload.value, "sessionId") == Ok(JStr(sessionId))
            && Subscript(ps[2].payload.value, "sessionId") == Ok(JStr(sessionId))
            && Subscript(ps[0].payload.value, "siteId") == Ok(OptStr(siteId))
            && Subscript(ps[2].payload.value, "siteId") == Ok(OptStr(siteId))
            && ps[1].payload == RawBytes(audio)
    ensures forall i :: 0 <= i < 3 ==> NamesOnly(TurnPublishes(siteId, sessionId, audio)[i], sessionId)
  {
    var ps := TurnPublishes(siteId, sessionId, audio);
    assert NamesOnly(ps[0], sessionId);
    assert NamesOnly(ps[1], sessionId);
    assert NamesOnly(ps[2], sessionId);
  }
}
