/**
 * The evaluation log both brokers keep (`test_log`): file path to
 * (sentence, prediction, target), and the `accuracy()` fold over it.
 */
module EvalLog {
  import opened PyStr
  import opened PyValues

  /** `(current_sentence, current_intent, target_intent)` at the time an intent was parsed. */
  datatype Entry = Entry(sentence: JValue, prediction: JValue, target: string)

  type Log = map<string, Entry>

  /** `prediction.lower() == target.lower()`, for a prediction that is a string. */
  predicate IsCorrect(e: Entry) {
    e.prediction.JStr? && EqualsIgnoringCase(e.prediction.s, e.target)
  }

  /** The files whose entry counts as correct. */
  function CorrectKeys(log: Log): set<string> {
    set k | k in log && IsCorrect(log[k])
  }

  /** `.lower()` is defined on every prediction: no entry holds a non-string intent. */
  predicate PredictionsAreStrings(log: Log) {
    forall k :: k in log ==> log[k].prediction.JStr?
  }

  /**
   * What `accuracy()` returns: `correct / total`, raising AttributeError on a
   * prediction without `.lower()` and ZeroDivisionError on an empty log.
   */
  function AccuracyOf(log: Log): Result<real> {
    if !PredictionsAreStrings(log) then Err(AttributeError)
    else if |log| == 0 then Err(ZeroDivisionError)
    else Ok(|CorrectKeys(log)| as real / |log| as real)
  }

  /** The accuracy of a non-empty log is a fraction in [0, 1]. */
  lemma AccuracyInUnitInterval(log: Log)
    ensures AccuracyOf(log).Ok? ==> 0.0 <= AccuracyOf(log).value <= 1.0
  {
    if AccuracyOf(log).Ok? {
      CorrectKeysBounded(log);
    }
  }

  lemma CorrectKeysBounded(log: Log)
    ensures |CorrectKeys(log)| <= |log|
  {
    assert CorrectKeys(log) <= log.Keys;
    SubsetCardinality(CorrectKeys(log), log.Keys);
  }

  lemma {:induction false} SubsetCardinality(a: set<string>, b: set<string>)
    requires a <= b
    ensures |a| <= |b|
    decreases |b|
  {
    if a != {} {
      var x :| x in a;
      SubsetCardinality(a - {x}, b - {x});
    }
  }

  /** `accuracy()` fails with ZeroDivisionError exactly on the empty log. */
  lemma EmptyLogDivides(log: Log)
    ensures AccuracyOf(log) == Err(ZeroDivisionError) <==> log == map[]
  {
    if log == map[] {
      assert PredictionsAreStrings(log);
    } else {
      assert |log| > 0 by {
        var k :| k in log;
        assert k in log.Keys;
      }
    }
  }

  /** A log of predictions that all match their targets (up to case) has accuracy 1. */
  lemma AllCorrectIsOne(log: Log)
    requires log != map[]
    requires forall k :: k in log ==> IsCorrect(log[k])
    ensures AccuracyOf(log) == Ok(1.0)
  {
    assert CorrectKeys(log) == log.Keys;
    assert PredictionsAreStrings(log);
    EmptyLogDivides(log);
    assert |CorrectKeys(log)| == |log.Keys| == |log|;
    var n := |log| as real;
    assert n / n == 1.0;
  }

  /**
   * The comparison ignores case: a string prediction is correct exactly when it
   * has the target's length and matches it letter by letter up to ASCII case.
   */
  lemma CaseInsensitiveMatch(sentence: JValue, prediction: string, target: string)
    ensures IsCorrect(Entry(sentence, JStr(prediction), target)) <==>
              && |prediction| == |target|
              && forall k :: 0 <= k < |prediction| ==> LowerChar(prediction[k]) == LowerChar(target[k])
  {
    if |prediction| == |target| && forall k :: 0 <= k < |prediction| ==> LowerChar(prediction[k]) == LowerChar(target[k]) {
      assert Lower(prediction) == Lower(target);
    }
  }

  /** The correct entries among the files in `seen`. */
  function CorrectAmong(log: Log, seen: set<string>): set<string> {
    set k | k in seen && k in log && IsCorrect(log[k])
  }

  lemma CorrectAmongStep(log: Log, seen: set<string>, key: string)
    requires key in log && key !in seen
    ensures IsCorrect(log[key]) ==> |CorrectAmong(log, seen + {key})| == |CorrectAmong(log, seen)| + 1
    ensures !IsCorrect(log[key]) ==> CorrectAmong(log, seen + {key}) == CorrectAmong(log, seen)
  {
    if IsCorrect(log[key]) {
      assert CorrectAmong(log, seen + {key}) == CorrectAmong(log, seen) + {key};
    }
  }

  /** The `accuracy()` loop over `test_log.items()`. */
  method Accuracy(log: Log) returns (r: Result<real>)
    ensures r == AccuracyOf(log)
  {
    var total := |log|;
    var correct, incorrect := 0, 0;
    var remaining := log.Keys;
    ghost var seen: set<string> := {};
    while remaining != {}
      invariant remaining !! seen && remaining + seen == log.Keys
      invariant forall k :: k in seen ==> log[k].prediction.JStr?
      invariant correct == |CorrectAmong(log, seen)|
      invariant correct + incorrect == |seen|
      decreases remaining
    {
      var key :| key in remaining;
      var entry := log[key];
      if !entry.prediction.JStr? {
        return Err(AttributeError);
      }
      CorrectAmongStep(log, seen, key);
      if EqualsIgnoringCase(entry.prediction.s, entry.target) {
        correct := correct + 1;
      } else {
        incorrect := incorrect + 1;
      }
      remaining := remaining - {key};
      seen := seen + {key};
    }
    assert CorrectAmong(log, seen) == CorrectKeys(log);
    if total == 0 {
      return Err(ZeroDivisionError);
    }
    r := Ok(correct as real / total as real);
  }
}
