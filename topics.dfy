/**
 * The Hermes/Rhasspy topic names the clients use, and the substring dispatch
 * that broker.py and getWAVafterWakeword.py share: the first of
 * "hermes/hotword/default/detected", "hermes/intent/" and "audioCaptured"
 * that occurs in the topic decides the handler.
 */
module Topics {
  import opened PyStr

  const IntentRecognized: string := "hermes/nlu/intentParsed"
  const IntentNotRecognized: string := "hermes/nlu/intentNotRecognized"
  const TextCaptured: string := "hermes/asr/textCaptured"
  const StartListening: string := "hermes/asr/startListening"
  const StopListening: string := "hermes/asr/stopListening"
  const NluQuery: string := "hermes/nlu/query"

  const HotwordDefaultDetected: string := "hermes/hotword/default/detected"
  const IntentPrefix: string := "hermes/intent/"
  const AudioCapturedPart: string := "audioCaptured"

  /** The handler chosen by the substring tests. */
  datatype Route = StartAsr | StopAsr | AudioCaptured | NoRoute

  /** First-match substring dispatch, in source order. */
  function SubstringRoute(topic: string): (r: Route)
    ensures r == StartAsr <==> Contains(topic, HotwordDefaultDetected)
    ensures r == StopAsr <==> !Contains(topic, HotwordDefaultDetected) && Contains(topic, IntentPrefix)
    ensures r == AudioCaptured <==>
              && !Contains(topic, HotwordDefaultDetected)
              && !Contains(topic, IntentPrefix)
              && Contains(topic, AudioCapturedPart)
  {
    if Contains(topic, HotwordDefaultDetected) then StartAsr
    else if Contains(topic, IntentPrefix) then StopAsr
    else if Contains(topic, AudioCapturedPart) then AudioCaptured
    else NoRoute
  }

  /** The substring tests give the same branch on the topic and on its stripped form. */
  lemma StripKeepsRoute(topic: string)
    ensures SubstringRoute(Strip(topic)) == SubstringRoute(topic)
  {
    StripKeepsContains(topic, HotwordDefaultDetected);
    StripKeepsContains(topic, IntentPrefix);
    StripKeepsContains(topic, AudioCapturedPart);
  }

  /** The topic `startASR`/`start_asr` subscribes to for a session's captured audio. */
  function AudioCapturedTopic(session: string): string {
    "rhasspy/asr/default/" + session + "/audioCaptured"
  }

  /** The topic on which a site announces a detected hotword. */
  function HotwordTopic(site: string): (t: string)
    ensures |t| == |site| + 24 && t[15..|site| + 15] == site
  {
    var t := "hermes/hotword/" + site + "/detected";
    assert t[15..|site| + 15] == site;
    t
  }

  /** In the hotword topic of a site without `/`, the only `/` are at 6, 14 and after the site. */
  lemma HotwordTopicSlashes(site: string)
    requires '/' !in site
    ensures var t := HotwordTopic(site);
            && t[6] == '/' && t[14] == '/' && t[|site| + 15] == '/' && t[8] == 'o'
            && (forall q :: 0 <= q < 15 && q != 6 && q != 14 ==> t[q] != '/')
            && (forall q :: 15 <= q < |site| + 15 ==> t[q] != '/')
            && (forall q :: |site| + 15 < q < |t| ==> t[q] != '/')
  {
    var pre, post := "hermes/hotword/", "/detected";
    var t := HotwordTopic(site);
    assert t == pre + site + post;
    forall q | 0 <= q < 15
      ensures t[q] == pre[q]
    {
    }
    forall q | 15 <= q < |site| + 15
      ensures t[q] != '/'
    {
      assert t[q] == site[q - 15];
      assert site[q - 15] in site;
    }
    forall q | |site| + 15 <= q < |t|
      ensures t[q] == post[q - |site| - 15]
    {
    }
  }

  /**
   * The default hotword topic can occur in a hotword topic only at its start and
   * only when the site name has the length of `default`: their `/` must line up.
   */
  lemma DefaultOccurrenceAligned(site: string, i: nat)
    requires '/' !in site
    ensures OccursAt(HotwordTopic(site), HotwordDefaultDetected, i) ==> i == 0 && |site| == 7
  {
    var t, n := HotwordTopic(site), HotwordDefaultDetected;
    HotwordTopicSlashes(site);
    assert n[6] == '/' && n[14] == '/' && n[22] == '/';
    if i + |n| <= |t| {
      var w := t[i..i + |n|];
      assert w[6] == t[i + 6] && w[14] == t[i + 14] && w[22] == t[i + 22];
    }
  }

  /** No hotword topic of a site other than `default` holds the default hotword topic. */
  lemma HotwordTopicLacksDefault(site: string)
    requires '/' !in site && site != "default"
    ensures !Contains(HotwordTopic(site), HotwordDefaultDetected)
  {
    var t, n := HotwordTopic(site), HotwordDefaultDetected;
    assert n[15..22] == "default";
    ContainsIffOccurs(t, n);
    forall i: nat
      ensures !OccursAt(t, n, i)
    {
      DefaultOccurrenceAligned(site, i);
      if i == 0 && |site| == 7 {
        assert t[..|n|][15..22] == site;
      }
    }
  }

  /** No hotword topic of a site without `/` holds the intent prefix. */
  lemma HotwordTopicLacksIntentPrefix(site: string)
    requires '/' !in site
    ensures !Contains(HotwordTopic(site), IntentPrefix)
  {
    var t, n := HotwordTopic(site), IntentPrefix;
    HotwordTopicSlashes(site);
    ContainsIffOccurs(t, n);
    assert n[0] == 'h' && n[6] == '/' && n[13] == '/';
    forall i: nat
      ensures !OccursAt(t, n, i)
    {
      if i + |n| <= |t| {
        var w := t[i..i + |n|];
        assert w[0] == t[i] && w[6] == t[i + 6] && w[13] == t[i + 13];
      }
    }
  }

  /** A hotword topic holds `audioCaptured` only inside its site name. */
  lemma HotwordTopicLacksAudioCaptured(site: string)
    requires '/' !in site && !Contains(site, AudioCapturedPart)
    ensures !Contains(HotwordTopic(site), AudioCapturedPart)
  {
    var t, n := HotwordTopic(site), AudioCapturedPart;
    HotwordTopicSlashes(site);
    ContainsIffOccurs(t, n);
    ContainsIffOccurs(site, n);
    assert forall k :: 0 <= k < |n| ==> n[k] != '/';
    forall i: nat
      ensures !OccursAt(t, n, i)
    {
      if i + |n| <= |t| {
        var w := t[i..i + |n|];
        if i < 2 {
          assert w[6 - i] == t[6];
        } else if i < 15 {
          assert w[14 - i] == t[14];
        } else if i + |n| > |site| + 15 {
          assert w[|site| + 15 - i] == t[|site| + 15];
        } else {
          assert w == site[i - 15..i - 15 + |n|];
          assert OccursAt(site, n, i - 15) <==> w == n;
        }
      }
    }
  }

  /**
   * A hotword detected on any other site, named without `/` and without
   * `audioCaptured`, reaches no handler.
   */
  lemma OtherSiteHotwordIgnored(site: string)
    requires '/' !in site && site != "default" && !Contains(site, AudioCapturedPart)
    ensures SubstringRoute(HotwordTopic(site)) == NoRoute
  {
    HotwordTopicLacksDefault(site);
    HotwordTopicLacksIntentPrefix(site);
    HotwordTopicLacksAudioCaptured(site);
  }

  /** The wake-word hotword topic and any intent topic reach their handlers. */
  lemma KnownTopicsRouted(intentName: string)
    ensures SubstringRoute(HotwordDefaultDetected) == StartAsr
    ensures SubstringRoute(IntentPrefix + intentName) == StopAsr
              || Contains(IntentPrefix + intentName, HotwordDefaultDetected)
  {
    assert StartsWith(HotwordDefaultDetected, HotwordDefaultDetected);
    assert StartsWith(IntentPrefix + intentName, IntentPrefix);
  }
}
