# Rhasspy test harness: session bookkeeping and dataset preparation, in Dafny

This project models the parts of a Rhasspy (Hermes MQTT) voice-assistant test
harness that have behaviour worth stating:

- the two `Broker` classes (broker.py and dogtest.py). They filter inbound
  messages by site, dispatch them by topic, and track the current turn: the
  recognised text, the predicted intent, the "intent received" flag and the
  evaluation log. `evaluation_loop` feeds a directory of labelled recordings
  through the assistant, and `accuracy()` scores the log;
- the wake-word client of getWAVafterWakeword.py. It turns hotword and intent
  messages into ASR start/stop requests over two module globals;
- `get_sentences_from_txt` of sentiment_analysis.py, which extracts the test
  sentences of a Rhasspy `sentences.ini` file;
- merge_datasets.py, which builds the neutral dataset by deleting the positive
  and negative sentences from the full list, samples 180 of the rest, and writes
  the labelled dataset.

Each source file is one module: `BrokerPy`, `DogTest`, `Wakeword`,
`SentenceFile` and `MergeDatasets`. Shared pieces live in their own modules:
- Python string operations (`PyStr`);
- exceptions as `Result` values, and decoded JSON (`PyValues`);
- topic names and the substring dispatch (`Topics`);
- audio file names and their labels (`AudioFiles`);
- the evaluation log and its accuracy (`EvalLog`);
- the requests the brokers publish (`Requests`).

Objects whose fields the source updates in place are Dafny classes:
`BrokerPy.Broker`, `DogTest.Broker` and `Wakeword.WakewordClient`. The
wake-word client's two module globals become the fields of
`Wakeword.WakewordClient`. Each method is proved against a pure step function
on a `State` value, through `Snapshot()`. The lemmas are stated about those step
functions and about runs of them over message sequences.

The model follows the code as written, including where the code itself shows
that something else was meant:
- broker.py reads `siteId` from the payload dict before decoding it. With a
  configured site, every message that has a payload is therefore dropped, and
  nothing is ever logged (`BrokerPy.ConfiguredSiteNeverLogs`).
- broker.py's `stop_asr` adds 1 to the string `'session-1'`. It raises
  TypeError after it has already published stopListening.
- broker.py's session id never changes, so every turn uses the same one. The
  per-turn name `session{i}` is commented out in its `evaluation_loop`
  (broker.py:158) and is live in dogtest.py's (dogtest.py:134).
- dogtest.py names each turn's session after the file's position in the
  listing. Those names are distinct, but nothing else advances them.
- dogtest.py decodes the payload before filtering, and a payload that is not
  UTF-8 raises UnicodeDecodeError. broker.py catches that error and treats
  such a payload as audio data (broker.py:103-105); dogtest.py has no handler.
- merge_datasets.py removes elements from the list it is enumerating, so an
  element right after a removed one is skipped. It also calls `remove` with the
  untruncated text, which can raise ValueError.

## Model

| member | source | states |
|---|---|---|
| `Topics.SubstringRoute` | broker.py:133-139 | First match among the three substring tests: hotword on the default site, then `hermes/intent/`, then `audioCaptured`; each branch holds exactly when the earlier tests fail and its own succeeds |
| `Topics.StripKeepsRoute` | broker.py:133-139 | The substring tests pick the same branch whether or not `msg.topic` is stripped first |
| `Topics.HotwordTopicLacksDefault` | getWAVafterWakeword.py:57 | `hermes/hotword/<site>/detected` contains `hermes/hotword/default/detected` for no site without `/` other than `default` |
| `Topics.HotwordTopicLacksIntentPrefix` | getWAVafterWakeword.py:59 | No hotword topic of a site without `/` contains `hermes/intent/` |
| `Topics.HotwordTopicLacksAudioCaptured` | getWAVafterWakeword.py:61 | A hotword topic contains `audioCaptured` only if its site name does |
| `Topics.OtherSiteHotwordIgnored` | getWAVafterWakeword.py:57-67 | A hotword detected on any site other than `default`, named without `/` and without `audioCaptured`, matches no branch |
| `Topics.KnownTopicsRouted` | broker.py:133-137 | The default hotword topic starts ASR. A `hermes/intent/<name>` topic stops it unless the name embeds the default hotword topic, whose test comes first |
| `PyStr.StripKeepsContains` | broker.py:89 | Stripping a topic never changes whether one of the dispatch substrings occurs in it |
| `PyStr.RStrip` | sentiment_analysis.py:17 | `rstrip()` returns the longest prefix that does not end in whitespace; everything it cuts is whitespace |
| `PyStr.JoinSplit` | broker.py:161 | Joining the fields of `split(sep)` gives back the original name |
| `PyStr.SplitHasSecondField` | broker.py:161 | `split('-')` has a field at index 1 exactly when the name contains `-` |
| `PyStr.ParseNatToStr` | getWAVafterWakeword.py:84 | `int(str(n)) == n` for the session number |
| `PyStr.NatToStrInjective` | dogtest.py:134 | Different numbers have different decimal texts |
| `PyValues.Subscript` | broker.py:113 | `d[key]` on decoded JSON returns the field, raises KeyError for a missing key, and raises TypeError on a non-dict |
| `AudioFiles.TargetLabel` | broker.py:161 | The target is the second `-`-separated field of the file name; a name without `-` raises IndexError |
| `AudioFiles.AudioExtensions` | broker.py:160 | Any stem followed by `.wav`, `.mp3` or `.ogg` is an audio file |
| `AudioFiles.TargetLabelOfDashedName` | broker.py:160-161 | For a name `head-intent-rest` whose head and intent hold no `-` (such as `3-greeting-test.wav`), the target is the intent |
| `AudioFiles.JoinPathEndsWithFile` | broker.py:163 | `os.path.join(path, file)` ends with the file name, after a `/` when the file name is relative |
| `EvalLog.AccuracyInUnitInterval` | broker.py:198-208 | A computed accuracy lies in [0, 1] |
| `EvalLog.EmptyLogDivides` | broker.py:199-208 | `accuracy()` raises ZeroDivisionError exactly when the log is empty |
| `EvalLog.AllCorrectIsOne` | broker.py:202-208 | A non-empty log whose predictions all match their targets scores 1 |
| `EvalLog.CaseInsensitiveMatch` | broker.py:204 | A string prediction is correct exactly when it has the target's length and equals it letter by letter up to (ASCII) case |
| `EvalLog.CorrectAmongStep` | broker.py:202-207 | Visiting one more entry adds one to the count of correct entries exactly when that entry is correct |
| `EvalLog.Accuracy` | broker.py:198-208 | The counting loop returns correct/total as the specification function defines it, or ZeroDivisionError |
| `Requests.TurnPublishesNameSession` | broker.py:168-174 | A turn publishes startListening, the audio frame and stopListening, in that order. Both requests name the turn's session and the broker's site, and the frame carries the file's bytes unchanged |
| `BrokerPy.Dispatch` | broker.py:112-139 | Exact topic comparisons come first, in the order intentParsed, intentNotRecognized, textCaptured; the substring tests run only after all three fail |
| `BrokerPy.ForMeOnlyWithoutPayload` | broker.py:88-99 | The site filter passes a message exactly when it has no payload or no site is configured |
| `BrokerPy.PayloadDropped` | broker.py:91-99 | With a configured site, a message that has a payload returns False and changes nothing |
| `BrokerPy.IntentParsedLogsCurrentFile` | broker.py:112-121 | intentParsed sets the intent and the flag. With a target set, it writes the log entry of the current file only, overwriting any earlier one; nothing else changes |
| `BrokerPy.IntentNotRecognizedOnlyFlags` | broker.py:123-125 | intentNotRecognized only raises the flag |
| `BrokerPy.TextCapturedQueriesVerbatim` | broker.py:127-131 | textCaptured stores the text and appends exactly one `hermes/nlu/query` whose `input` is that text and whose `siteId` is the broker's |
| `BrokerPy.IntentTopicRaises` | broker.py:136-137 | An intent topic runs `stop_asr`, which always raises TypeError after recording has stopped; the session id is unchanged |
| `BrokerPy.HotwordStartsAsr` | broker.py:133-134 | A default-site hotword turns recording on, publishes one startListening carrying the unchanged session id, and subscribes to that session's audio |
| `BrokerPy.UnmatchedTopicIgnored` | broker.py:139-143 | Captured audio and unmatched topics change no field |
| `BrokerPy.ConfiguredSiteNeverLogs` | broker.py:88-121 | With a configured site, no sequence of messages changes the evaluation log |
| `BrokerPy.RunKeepsSession` | broker.py:86-143 | Messages keep the session id, and every request they publish that names a session (start_asr's startListening) names the broker's own |
| `BrokerPy.EvaluateUsesOneSession` | broker.py:157-174 | Every request the evaluation loop publishes names the same session id |
| `BrokerPy.RunFrame` | broker.py:86-143 | Messages never change the site, the request and session ids, the current file or the target |
| `BrokerPy.EntryOutcomes` | broker.py:160-182 | A non-audio entry changes nothing, and an audio name without `-` raises IndexError. Any other audio file ends its turn with the flag down and with the joined path and the label as the current ones |
| `BrokerPy.ConfiguredSiteAccuracyFails` | broker.py:30-35 | From start-up with a configured site, the log stays empty after the loop, so `accuracy()` raises ZeroDivisionError |
| `BrokerPy.EvaluateKeepsLog` | broker.py:153-182 | With a configured site, the whole evaluation loop leaves the log as it was |
| `BrokerPy.EvaluatePrefixError` | broker.py:157-161 | The loop stops at the first entry that raises |
| `BrokerPy.Broker.constructor` | broker.py:30-53 | The fields start as `__init__` sets them |
| `BrokerPy.Broker.StartAsr` | broker.py:213-218 | `start_asr` is `StartAsrStep` on the fields |
| `BrokerPy.Broker.StopAsr` | broker.py:220-226 | `stop_asr` clears the recording flag, publishes stopListening and raises TypeError |
| `BrokerPy.Broker.OnMessage` | broker.py:86-143 | `on_message` is `Step` on the fields, with the same return value or exception |
| `BrokerPy.Broker.Dispatched` | broker.py:112-143 | The branch chain runs the handler `Dispatch` selects |
| `BrokerPy.Broker.OnIntentParsed` | broker.py:112-121 | The intentParsed branch is `IntentParsedStep` |
| `BrokerPy.Broker.OnTextCaptured` | broker.py:127-131 | The textCaptured branch is `TextCapturedStep` |
| `BrokerPy.Broker.AwaitIntent` | broker.py:176-181 | The poll sleeps at most 500 times. It times out exactly when the flag is not set, and sleeps 0 times when it is set |
| `BrokerPy.Broker.BeginTurn` | broker.py:161-174 | Sets the target and the current file, then publishes the turn's three requests |
| `BrokerPy.Broker.Deliver` | broker.py:86-143 | Handing the replies to `on_message` one by one is `Run` |
| `BrokerPy.Broker.EvaluateEntry` | broker.py:157-182 | One directory entry is `EntryStep`, including the flag reset |
| `BrokerPy.Broker.EvaluationLoop` | broker.py:153-182 | The loop over the listing is `Evaluate` |
| `BrokerPy.Broker.Accuracy` | broker.py:198-208 | `accuracy()` is `AccuracyOf` of the log |
| `DogTest.Dispatch` | dogtest.py:98-118 | Dispatch is by exact topic only, in the order intentParsed, intentNotRecognized, textCaptured |
| `DogTest.SiteFilter` | dogtest.py:87-96 | A message is dropped exactly when its decoded payload names a different site. A non-UTF-8 payload raises before the filter. A dropped message changes nothing |
| `DogTest.EmptyPayloadDropped` | dogtest.py:87-96 | A message without payload is dropped exactly when a site is configured |
| `DogTest.IntentParsedLogsCurrentFile` | dogtest.py:98-107 | intentParsed for this site sets the intent and the flag. With a target set, it writes the current file's log entry only |
| `DogTest.IntentNotRecognizedOnlyFlags` | dogtest.py:110-112 | intentNotRecognized only raises the flag |
| `DogTest.TextCapturedQueriesVerbatim` | dogtest.py:114-118 | textCaptured stores the text and publishes one NLU query with that text as `input` |
| `DogTest.OtherTopicsIgnored` | dogtest.py:98-118 | Any other topic, the hotword and intent topics included, changes nothing |
| `DogTest.SessionNamesDistinct` | dogtest.py:134 | `session{i}` and `session{j}` are equal exactly when `i == j` |
| `DogTest.AudioSessionsDistinct` | dogtest.py:133-136 | The sessions of the audio files in a listing are pairwise different |
| `DogTest.RunOpensNoSession` | dogtest.py:84-118 | Handling messages never opens a session |
| `DogTest.TurnOpensOneSession` | dogtest.py:144-150 | A turn opens exactly one session, the one it was given |
| `DogTest.EvaluateOpensOneSessionPerFile` | dogtest.py:133-154 | A completed loop opens one session per audio file, named after its position, in listing order |
| `DogTest.EntryLabelOutcomes` | dogtest.py:133-137 | A non-audio entry uses up its index and publishes nothing; an audio name without `-` raises IndexError |
| `DogTest.SilentTurnHangs` | dogtest.py:152-153 | A turn that receives no reply waits forever |
| `DogTest.AnsweredTurnLogs` | dogtest.py:98-107 | An intentParsed reply for this site ends the turn with the file logged under its joined path and its label as target |
| `DogTest.StepRaisesFlag` | dogtest.py:84-112 | One reply raises `intent_received` exactly when it decodes, is for this site, and is intentNotRecognized or an intentParsed naming an intent; site, target and current file are untouched |
| `DogTest.RunRaisesFlag` | dogtest.py:84-112 | Over any replies the flag ends up raised exactly when it already was or some reply does so, and site, target and current file are untouched |
| `DogTest.AnyAnswersAt` | dogtest.py:98-112 | Some reply raises the flag exactly when there is a position holding such a reply |
| `DogTest.EntryEnds` | dogtest.py:136-154 | For any replies, an audio file with a label ends its turn exactly when the flag was already up or some reply raises it, and otherwise waits forever; a completed turn leaves the flag down with the file and its label current |
| `DogTest.EvaluatePrefixStops` | dogtest.py:133-154 | The loop ends at the first entry that raises or hangs |
| `DogTest.Broker.constructor` | dogtest.py:26-46 | The fields start as `__init__` sets them |
| `DogTest.Broker.OnMessage` | dogtest.py:84-118 | `on_message` is `Step` on the fields |
| `DogTest.Broker.Dispatched` | dogtest.py:98-118 | The branch chain runs the handler `Dispatch` selects |
| `DogTest.Broker.OnIntentParsed` | dogtest.py:98-107 | The intentParsed branch is `IntentParsedStep` |
| `DogTest.Broker.OnTextCaptured` | dogtest.py:114-118 | The textCaptured branch is `TextCapturedStep` |
| `DogTest.Broker.BeginTurn` | dogtest.py:137-150 | Sets the target and the current file, then publishes the turn's three requests under `session{i}` |
| `DogTest.Broker.Deliver` | dogtest.py:84-118 | Handing the replies to `on_message` one by one is `Run` |
| `DogTest.Broker.AwaitIntent` | dogtest.py:152-153 | The wait never ends exactly when the flag is not set |
| `DogTest.Broker.EvaluateEntry` | dogtest.py:133-154 | One directory entry is `EntryStep`, including the flag reset |
| `DogTest.Broker.EvaluationLoop` | dogtest.py:129-154 | The loop over the listing is `Evaluate` |
| `DogTest.Broker.Accuracy` | dogtest.py:169-179 | `accuracy()` is `AccuracyOf` of the log |
| `Wakeword.RouteIgnoresStrip` | getWAVafterWakeword.py:53-54 | Stripping the topic never changes the branch taken |
| `Wakeword.StartASROpensCurrentSession` | getWAVafterWakeword.py:78-85 | `startASR` turns recording on and opens session `str(sessionID)`. It subscribes to that session's audio and leaves the number unchanged |
| `Wakeword.StopASRAdvancesSession` | getWAVafterWakeword.py:88-96 | `stopASR` turns recording off, publishes a payload-less stopListening and adds exactly one to the session number |
| `Wakeword.AudioAndUnmatchedChangeNothing` | getWAVafterWakeword.py:61-67 | Captured audio and unmatched topics change neither global |
| `Wakeword.OtherSiteHotwordChangesNothing` | getWAVafterWakeword.py:53-67 | A hotword detected on any site other than `default`, named without `/` and without `audioCaptured`, changes neither global |
| `Wakeword.SessionCountsIntents` | getWAVafterWakeword.py:59-60 | Over any message sequence, the session number grows by exactly the number of intent messages |
| `Wakeword.SessionFromStartUp` | getWAVafterWakeword.py:30 | From start-up, `sessionID` is the number of intent messages handled |
| `Wakeword.RecordingFollowsLastToggle` | getWAVafterWakeword.py:29 | `isRecording` follows the last hotword or intent message, and keeps its value without one |
| `Wakeword.WakewordClient.constructor` | getWAVafterWakeword.py:29-30 | `isRecording` starts True and `sessionID` starts at 0 |
| `Wakeword.WakewordClient.StartASR` | getWAVafterWakeword.py:78-85 | `startASR` is `StartASRStep` on the globals |
| `Wakeword.WakewordClient.StopASR` | getWAVafterWakeword.py:88-96 | `stopASR` is `StopASRStep` on the globals |
| `Wakeword.WakewordClient.OnMessage` | getWAVafterWakeword.py:48-67 | `on_message` is `Step` on the globals |
| `SentenceFile.GetSentencesFromTxt` | sentiment_analysis.py:7-20 | The loop returns `Sentences(lines)` |
| `SentenceFile.SentencesClean` | sentiment_analysis.py:16-19 | No sentence contains `[`, is empty, or ends in whitespace; there are no more sentences than lines |
| `SentenceFile.SentencesAreKeptLines` | sentiment_analysis.py:15-19 | The k-th sentence is the right-stripped k-th kept line, so it is a prefix of that line and keeps its leading whitespace. File order is kept, and a line is used exactly when it has no `[` and is not blank |
| `SentenceFile.KeptLineAppears` | sentiment_analysis.py:16-19 | Every line without `[` that is not blank contributes its sentence |
| `SentenceFile.SentencesIdempotent` | sentiment_analysis.py:7-20 | Filtering the sentences again gives them back unchanged |
| `SentenceFile.RStripIdempotent` | sentiment_analysis.py:17 | Right-stripping twice is right-stripping once |
| `MergeDatasets.BeforeParen` | merge_datasets.py:26-27 | `elem_2[:elem_2.index("(")]` is a prefix free of `(` that is followed by `(` |
| `PyStr.StripKeepsAbsent` | merge_datasets.py:27 | `strip()` introduces no character, so the truncation stays free of `(` |
| `MergeDatasets.Truncate` | merge_datasets.py:25-27 | The truncation holds no `(`. It is the text before the first `(` with its surrounding whitespace removed (it neither starts nor ends with whitespace), and a sentence without `(` is kept as it is |
| `MergeDatasets.TruncateBeforeParen` | merge_datasets.py:26-27 | Text, then whitespace, then `(`: the truncation is the text, such as `hi` for `hi (there)` |
| `MergeDatasets.RemoveFirst` | merge_datasets.py:30 | `remove` raises ValueError exactly when the value is absent. Otherwise it deletes its first occurrence, so the list shrinks by one and loses one copy |
| `MergeDatasets.Visit` | merge_datasets.py:24-30 | On a miss the list is the old one with the visited sentence overwritten by its truncation. On a match `remove` raises ValueError exactly when the original sentence no longer occurs after that overwrite, and otherwise deletes one copy of it; no other error is raised |
| `MergeDatasets.ExcludeAllAppend` | merge_datasets.py:20-22 | Excluding `pos + neg` is excluding the positives, then the negatives from what is left |
| `MergeDatasets.ExcludeNeverGrows` | merge_datasets.py:22-30 | The filtering never makes the list longer |
| `MergeDatasets.FilteredFromOriginals` | merge_datasets.py:22-30 | Every remaining sentence is an original sentence or the truncation of one |
| `MergeDatasets.SkipAfterRemove` | merge_datasets.py:23-30 | After a removal the index still advances, so the second of two equal sentences is skipped and survives its own exclusion |
| `MergeDatasets.TruncatedMatchRaises` | merge_datasets.py:25-30 | A lone sentence with `(` whose truncation is the exclusion makes `remove` raise ValueError |
| `MergeDatasets.UnmatchedIsTruncated` | merge_datasets.py:25-28 | A sentence with `(` that matches nothing stays in the list, truncated in place |
| `MergeDatasets.PassErrorsAreValueErrors` | merge_datasets.py:22-30 | The only exception the filtering raises is ValueError |
| `MergeDatasets.ExcludePass` | merge_datasets.py:23-30 | The inner loop is one pass `PassFrom(elem, sents, 0)` |
| `MergeDatasets.FilterNeutral` | merge_datasets.py:20-30 | The nested loops compute `ExcludeAll(pos + neg, all)` |
| `MergeDatasets.Sample` | merge_datasets.py:32 | `random.sample(pop, 180)` raises ValueError exactly when fewer than 180 remain. Otherwise it returns 180 elements taken from the chosen distinct positions |
| `MergeDatasets.WriteLines` | merge_datasets.py:34-36 | One line per sampled sentence: the sentence followed by a line break |
| `MergeDatasets.GetNeutralSentences` | merge_datasets.py:7-36 | The neutral file has exactly 180 lines, each a filtered sentence from a distinct position. It raises ValueError exactly when the filtering raises or fewer than 180 sentences remain |
| `MergeDatasets.LabelledLineRoundTrip` | merge_datasets.py:60 | A line `f'{label}, {sentence}\n'` with a comma-free label gives back its label and its sentence |
| `MergeDatasets.GroupLinesRoundTrip` | merge_datasets.py:59-64 | Every line of a group carries the group's label and gives back its sentence, in order |
| `MergeDatasets.CreateLabelledData` | merge_datasets.py:39-64 | IndexError exactly when there are fewer than three labels. Otherwise the negative lines under `labels[0]` come first, then the neutral lines under `labels[1]`, then the positive lines under `labels[2]` |
| `MergeDatasets.LabelledDataLayout` | merge_datasets.py:54-64 | The file has \|neg\| + \|neutral\| + \|pos\| lines, and its three consecutive blocks are the three labelled groups |

## Left out

- The MQTT transport is not modelled: `mqtt.Client`, `connect`, `on_connect` and its subscription list, `on_disconnect`'s `reconnect`, `loop_start`/`loop_forever`, the connection wait, and getWAVafterWakeword.py's `connect_mqtt`, `subscribe` and `run`. A publish is an append to an outbox; a subscribe in `start_asr`/`startASR` is an append to a list of subscriptions.
- Time and the network thread are not modelled. The messages the network thread delivers while a turn waits are an input sequence per directory entry, delivered after the turn's three publishes. A handler that raises keeps its earlier effects, and the model goes on delivering the later messages. A network thread that dies on the exception corresponds to a shorter input sequence.
- BrokerPy.Broker.AwaitIntent: it counts the 50 ms sleeps instead of sleeping, and reads the flag once, because a flag set by another thread during the poll is outside a sequential model.
- DogTest.Broker.AwaitIntent: the unbounded `while not intent_received` becomes a `Hangs` outcome that ends the loop; its `hangs` result is not a computation that waits.
- JSON and UTF-8 decoding are not modelled. A payload is already decoded: empty, a JSON object, or bytes that are not UTF-8. JSON that is not an object, and UTF-8 text that is not JSON, are not represented. Such text raises in dogtest.py, and in broker.py only when no site is configured, since broker.py's filter returns before `json.loads` otherwise.
- PCM decoding of captured audio, `audio_callback` and the printing of samples (broker.py:139-143, getWAVafterWakeword.py:61-64) are not modelled; those branches change no modelled state.
- Console output (`print`, the `show_not_for_me` message) and `message_loop`, `send_message` and `loop` are not modelled.
- File I/O is not modelled. A directory listing is a sequence of entries in `os.listdir` order, with each file's bytes. A text file is its sequence of lines, each with its line break; the written files are the sequence of strings passed to `write`.
- Randomness is not modelled: `random.sample`'s choice is an input `picks` of 180 distinct positions, and getWAVafterWakeword.py's random client id is left out.
- PyStr.Lower: only ASCII letters are lower-cased; Python's full Unicode `str.lower()` is not modelled.
- EvalLog.Accuracy: the quotient correct/total is an exact real; float rounding is not modelled.
- `get_neutral_sentences` and `create_labelled_data` are not modelled as reading files by path; `os.path.join` on the dataset paths and the `__main__` block of merge_datasets.py are not modelled.
- sentiment.py, main.py and audioaugment.py are not part of this model: they are model loading and inference, JSON callback glue, and signal processing over external libraries. `predict_sentiments` and `write_dict_to_json` in sentiment_analysis.py are not part of this model for the same reason.
