/**
 * merge_datasets.py: building the neutral dataset by removing the positive and
 * negative sentences from the full sentence list, sampling 180 of what is
 * left, and writing the labelled dataset. Files are given as their lines; what
 * a function writes is the sequence of strings passed to `file.write`.
 */
module MergeDatasets {
  import opened PyStr
  import opened PyValues
  import opened SentenceFile

  /** `elem_2[:elem_2.index("(")]`: the text before the first `(`. */
  function BeforeParen(s: string): (h: string)
    requires '(' in s
    ensures |h| < |s| && h == s[..|h|] && s[|h|] == '(' && '(' !in h
  {
    s[..IndexOf(s, '(')]
  }

  /** The text before the first `(`, stripped, or the sentence itself when it has no `(`. */
  function Truncate(s: string): (r: string)
    ensures '(' !in r
    ensures '(' !in s ==> r == s
    ensures '(' in s ==> exists k: nat :: TrimmedAt(BeforeParen(s), r, k)
    ensures '(' in s ==> r == [] || (!IsSpace(r[0]) && !IsSpace(r[|r| - 1]))
  {
    if '(' in s then
      var head := BeforeParen(s);
      StripKeepsAbsent(head, '(');
      Strip(head)
    else s
  }

  /** Truncating twice is truncating once. */
  lemma TruncateIdempotent(s: string)
    ensures Truncate(Truncate(s)) == Truncate(s)
  {
  }

  /** The first position of `x` in `xs`. */
  function FirstIndex(xs: seq<string>, x: string): (j: nat)
    requires x in xs
    ensures j < |xs| && xs[j] == x && x !in xs[..j]
  {
    if xs[0] == x then 0 else 1 + FirstIndex(xs[1..], x)
  }

  /** `xs.remove(x)`: deletes the first element equal to `x`, or raises ValueError. */
  function RemoveFirst(xs: seq<string>, x: string): (r: Result<seq<string>>)
    ensures r.Err? <==> x !in xs
    ensures r.Err? ==> r.error == ValueError
    ensures r.Ok? ==> |r.value| == |xs| - 1 && multiset(r.value) == multiset(xs) - multiset{x}
    ensures r.Ok? ==> exists j :: 0 <= j < |xs| && xs[j] == x && x !in xs[..j] && r.value == xs[..j] + xs[j + 1..]
  {
    if x !in xs then Err(ValueError)
    else
      var j := FirstIndex(xs, x);
      assert xs == xs[..j] + [xs[j]] + xs[j + 1..];
      Ok(xs[..j] + xs[j + 1..])
  }

  /**
   * Visiting position `i` for the exclusion `elem`: a sentence with a `(` is
   * overwritten in place by its truncation; if the (possibly truncated)
   * sentence equals `elem`, the first copy of the ORIGINAL sentence is removed.
   */
  function Visit(elem: string, sents: seq<string>, i: nat): (r: Result<seq<string>>)
    requires i < |sents|
    ensures r.Err? ==> r.error == ValueError && elem == Truncate(sents[i])
    ensures r.Ok? ==> |r.value| == |sents| - (if elem == Truncate(sents[i]) then 1 else 0)
    ensures elem != Truncate(sents[i]) ==> r == Ok(sents[i := Truncate(sents[i])])
    ensures elem == Truncate(sents[i]) ==> (r.Err? <==> sents[i] !in sents[i := Truncate(sents[i])])
    ensures elem == Truncate(sents[i]) && r.Ok? ==>
              multiset(r.value) == multiset(sents[i := Truncate(sents[i])]) - multiset{sents[i]}
  {
    var elem2 := sents[i];
    var cut := Truncate(elem2);
    assert '(' !in elem2 ==> sents[i := cut] == sents;
    var visited := if '(' in elem2 then sents[i := cut] else sents;
    if elem == cut then RemoveFirst(visited, elem2) else Ok(visited)
  }

  /**
   * One pass of the inner `for i, elem_2 in enumerate(all_sent)` for the
   * exclusion `elem`, from index `i` on. The index advances after every
   * element, also after a removal has shifted the rest of the list left.
   */
  function PassFrom(elem: string, sents: seq<string>, i: nat): Result<seq<string>>
    decreases |sents| - i
  {
    if i >= |sents| then Ok(sents)
    else
      var next :- Visit(elem, sents, i);
      PassFrom(elem, next, i + 1)
  }

  /** The outer `for elem in pos`: one pass per exclusion, in order; a ValueError ends it. */
  function ExcludeAll(exclusions: seq<string>, sents: seq<string>): Result<seq<string>>
    decreases |exclusions|
  {
    if exclusions == [] then Ok(sents)
    else
      var next :- PassFrom(exclusions[0], sents, 0);
      ExcludeAll(exclusions[1..], next)
  }

  /** Excluding `a + b` is excluding `a`, then `b` from what is left. */
  lemma {:induction false} ExcludeAllAppend(a: seq<string>, b: seq<string>, sents: seq<string>)
    ensures ExcludeAll(a + b, sents) == (match ExcludeAll(a, sents)
                                         case Err(e) => Err(e)
                                         case Ok(rest) => ExcludeAll(b, rest))
    decreases |a|
  {
    if a == [] {
      assert a + b == b;
    } else {
      assert (a + b)[1..] == a[1..] + b;
      match PassFrom(a[0], sents, 0)
      case Err(_) =>
      case Ok(next) => ExcludeAllAppend(a[1..], b, next);
    }
  }

  /** A pass never makes the list longer. */
  lemma {:induction false} PassNeverGrows(elem: string, sents: seq<string>, i: nat)
    ensures PassFrom(elem, sents, i).Ok? ==> |PassFrom(elem, sents, i).value| <= |sents|
    decreases |sents| - i
  {
    if i < |sents| {
      var next := Visit(elem, sents, i);
      if next.Ok? {
        PassNeverGrows(elem, next.value, i + 1);
      }
    }
  }

  /** Excluding never makes the list longer. */
  lemma {:induction false} ExcludeNeverGrows(exclusions: seq<string>, sents: seq<string>)
    ensures ExcludeAll(exclusions, sents).Ok? ==> |ExcludeAll(exclusions, sents).value| <= |sents|
    decreases |exclusions|
  {
    if exclusions != [] {
      PassNeverGrows(exclusions[0], sents, 0);
      var next := PassFrom(exclusions[0], sents, 0);
      if next.Ok? {
        ExcludeNeverGrows(exclusions[1..], next.value);
      }
    }
  }

  /** `x` is one of the original sentences, or the truncation of one. */
  predicate FromOriginal(original: seq<string>, x: string) {
    exists y :: y in original && (x == y || x == Truncate(y))
  }

  /** Visiting one position keeps every sentence an original or the truncation of one. */
  lemma VisitKeepsOrigins(original: seq<string>, elem: string, sents: seq<string>, i: nat)
    requires i < |sents|
    requires forall x :: x in sents ==> FromOriginal(original, x)
    ensures Visit(elem, sents, i).Ok? ==>
              forall x :: x in Visit(elem, sents, i).value ==> FromOriginal(original, x)
  {
    var elem2 := sents[i];
    var cut := Truncate(elem2);
    var visited := if '(' in elem2 then sents[i := cut] else sents;
    assert FromOriginal(original, elem2);
    var y :| y in original && (elem2 == y || elem2 == Truncate(y));
    TruncateIdempotent(y);
    assert FromOriginal(original, cut) by {
      assert cut == Truncate(y);
    }
    forall x | x in visited
      ensures FromOriginal(original, x)
    {
      if x != cut {
        var k :| 0 <= k < |visited| && visited[k] == x;
        assert x == sents[k];
      }
    }
    if elem == cut {
      var removed := RemoveFirst(visited, elem2);
      if removed.Ok? {
        forall x | x in removed.value
          ensures FromOriginal(original, x)
        {
          var j :| 0 <= j < |visited| && visited[j] == elem2 && removed.value == visited[..j] + visited[j + 1..];
          assert x in visited[..j] || x in visited[j + 1..];
        }
      }
    }
  }

  /** Every sentence a pass leaves is an original sentence or the truncation of one. */
  lemma {:induction false} PassKeepsOrigins(original: seq<string>, elem: string, sents: seq<string>, i: nat)
    requires forall x :: x in sents ==> FromOriginal(original, x)
    ensures PassFrom(elem, sents, i).Ok? ==>
              forall x :: x in PassFrom(elem, sents, i).value ==> FromOriginal(original, x)
    decreases |sents| - i
  {
    if i < |sents| {
      VisitKeepsOrigins(original, elem, sents, i);
      var next := Visit(elem, sents, i);
      if next.Ok? {
        PassKeepsOrigins(original, elem, next.value, i + 1);
      }
    }
  }

  /** After every exclusion pass the list holds only original sentences and their truncations. */
  lemma {:induction false} ExcludeKeepsOrigins(original: seq<string>, exclusions: seq<string>, sents: seq<string>)
    requires forall x :: x in sents ==> FromOriginal(original, x)
    ensures ExcludeAll(exclusions, sents).Ok? ==>
              forall x :: x in ExcludeAll(exclusions, sents).value ==> FromOriginal(original, x)
    decreases |exclusions|
  {
    if exclusions != [] {
      PassKeepsOrigins(original, exclusions[0], sents, 0);
      var next := PassFrom(exclusions[0], sents, 0);
      if next.Ok? {
        ExcludeKeepsOrigins(original, exclusions[1..], next.value);
      }
    }
  }

  /** The filtered list consists of sentences of the full list, some of them truncated. */
  lemma FilteredFromOriginals(exclusions: seq<string>, sents: seq<string>)
    ensures ExcludeAll(exclusions, sents).Ok? ==>
              forall x :: x in ExcludeAll(exclusions, sents).value ==> FromOriginal(sents, x)
  {
    ExcludeKeepsOrigins(sents, exclusions, sents);
  }

  /**
   * Removing the first of two equal sentences shifts the second into the
   * visited slot, so the pass skips it and an excluded sentence survives.
   */
  lemma SkipAfterRemove(x: string)
    requires '(' !in x
    ensures PassFrom(x, [x, x], 0) == Ok([x])
  {
    var l := [x, x];
    assert FirstIndex(l, x) == 0;
    assert l[..0] + l[1..] == [x];
    assert Visit(x, l, 0) == Ok([x]);
  }

  /**
   * A sentence `head gap (tail`, where `head` holds no `(` and has no outer
   * whitespace and `gap` is whitespace, truncates to `head`: `"hi (there)"` gives `"hi"`.
   */
  lemma TruncateBeforeParen(head: string, gap: string, tail: string)
    requires '(' !in head && (head == [] || (!IsSpace(head[0]) && !IsSpace(head[|head| - 1])))
    requires forall i :: 0 <= i < |gap| ==> IsSpace(gap[i])
    ensures Truncate(head + gap + "(" + tail) == head
  {
    var s := head + gap + "(" + tail;
    var k := |head + gap|;
    assert s[..k] == head + gap && s[k] == '(';
    assert forall i :: 0 <= i < |gap| ==> gap[i] != '(';
    IndexOfUnique(s, '(', k);
    RStripTrailingSpace(head, gap);
  }

  /**
   * A lone sentence with a `(` whose truncation is the exclusion is no longer
   * present under its original text, so `remove` raises ValueError.
   */
  lemma TruncatedMatchRaises(s: string)
    requires '(' in s
    ensures PassFrom(Truncate(s), [s], 0) == Err(ValueError)
  {
    var l := [s];
    assert l[0 := Truncate(s)] == [Truncate(s)];
    assert s != Truncate(s);
    assert Visit(Truncate(s), l, 0) == Err(ValueError);
  }

  /** A sentence with a `(` that matches no exclusion is kept, truncated. */
  lemma UnmatchedIsTruncated(elem: string, s: string)
    requires '(' in s && elem != Truncate(s)
    ensures PassFrom(elem, [s], 0) == Ok([Truncate(s)])
  {
    var l := [s];
    assert l[0 := Truncate(s)] == [Truncate(s)];
    assert Visit(elem, l, 0) == Ok([Truncate(s)]);
  }

  /** The inner loop of `get_neutral_sentences` for one exclusion `elem`. */
  method ExcludePass(elem: string, sents0: seq<string>) returns (r: Result<seq<string>>)
    ensures r == PassFrom(elem, sents0, 0)
  {
    var sents := sents0;
    var i := 0;
    while i < |sents|
      invariant PassFrom(elem, sents0, 0) == PassFrom(elem, sents, i)
      decreases |sents| - i
    {
      ghost var before := sents;
      var elem2 := sents[i];
      var cut := elem2;
      if '(' in elem2 {
        var index := IndexOf(elem2, '(');
        cut := Strip(elem2[..index]);
        sents := sents[i := cut];
      }
      assert cut == Truncate(elem2);
      if elem == cut {
        var removed := RemoveFirst(sents, elem2);
        if removed.Err? {
          assert Visit(elem, before, i) == Err(ValueError);
          return Err(ValueError);
        }
        sents := removed.value;
      }
      assert Visit(elem, before, i) == Ok(sents);
      i := i + 1;
    }
    r := Ok(sents);
  }

  /** The filtering loop of `get_neutral_sentences`: `pos.extend(neg)`, then one pass per exclusion. */
  method FilterNeutral(pos: seq<string>, neg: seq<string>, allSent: seq<string>) returns (r: Result<seq<string>>)
    ensures r == ExcludeAll(pos + neg, allSent)
  {
    var exclusions := pos + neg;
    var sents := allSent;
    for n := 0 to |exclusions|
      invariant ExcludeAll(exclusions, allSent) == ExcludeAll(exclusions[n..], sents)
    {
      var pass := ExcludePass(exclusions[n], sents);
      assert exclusions[n..][1..] == exclusions[n + 1..];
      if pass.Err? {
        return pass;
      }
      sents := pass.value;
    }
    r := Ok(sents);
  }

  /** How many sentences `random.sample` draws. */
  const SampleSize := 180

  /** The positions `random.sample` picks: `SampleSize` distinct indices below `n`. */
  predicate ValidPicks(picks: seq<nat>, n: nat) {
    && |picks| == SampleSize
    && (forall k :: 0 <= k < |picks| ==> picks[k] < n)
    && (forall a, b :: 0 <= a < b < |picks| ==> picks[a] != picks[b])
  }

  /** `random.sample(population, 180)`, with the random choice given as `picks`. */
  function Sample(population: seq<string>, picks: seq<nat>): (r: Result<seq<string>>)
    requires |population| >= SampleSize ==> ValidPicks(picks, |population|)
    ensures r.Err? <==> |population| < SampleSize
    ensures r.Err? ==> r.error == ValueError
    ensures r.Ok? ==> |r.value| == SampleSize
    ensures r.Ok? ==> forall k :: 0 <= k < SampleSize ==> r.value[k] == population[picks[k]]
  {
    if |population| < SampleSize then Err(ValueError)
    else Ok(seq(SampleSize, k requires 0 <= k < SampleSize => population[picks[k]]))
  }

  /** The writes of `for element in sentences: file.write('%s\n' % element)`. */
  method WriteLines(sentences: seq<string>) returns (written: seq<string>)
    ensures |written| == |sentences|
    ensures forall k :: 0 <= k < |sentences| ==> written[k] == sentences[k] + "\n"
  {
    written := [];
    for k := 0 to |sentences|
      invariant |written| == k
      invariant forall j :: 0 <= j < k ==> written[j] == sentences[j] + "\n"
    {
      written := written + [sentences[k] + "\n"];
    }
  }

  /** The filtered list of `get_neutral_sentences`, before sampling. */
  function NeutralPool(posLines: seq<string>, negLines: seq<string>, sentLines: seq<string>): Result<seq<string>> {
    ExcludeAll(Sentences(posLines) + Sentences(negLines), Sentences(sentLines))
  }

  /** The random choice is only constrained when there is something to choose from. */
  predicate PicksFor(posLines: seq<string>, negLines: seq<string>, sentLines: seq<string>, picks: seq<nat>) {
    var pool := NeutralPool(posLines, negLines, sentLines);
    pool.Ok? && |pool.value| >= SampleSize ==> ValidPicks(picks, |pool.value|)
  }

  /**
   * `get_neutral_sentences`: what it writes to the neutral file, or the error
   * it raises (ValueError from `remove` or from `random.sample`).
   */
  method GetNeutralSentences(posLines: seq<string>, negLines: seq<string>, sentLines: seq<string>, picks: seq<nat>)
    returns (r: Result<seq<string>>)
    requires PicksFor(posLines, negLines, sentLines, picks)
    ensures r.Err? <==> NeutralPool(posLines, negLines, sentLines).Err? || |NeutralPool(posLines, negLines, sentLines).value| < SampleSize
    ensures r.Err? ==> r.error == ValueError
    ensures r.Ok? ==> |r.value| == SampleSize
    ensures r.Ok? ==> forall k :: 0 <= k < SampleSize ==>
              r.value[k] == NeutralPool(posLines, negLines, sentLines).value[picks[k]] + "\n"
  {
    var pos := GetSentencesFromTxt(posLines);
    var neg := GetSentencesFromTxt(negLines);
    var allSent := GetSentencesFromTxt(sentLines);
    var filtered := FilterNeutral(pos, neg, allSent);
    if filtered.Err? {
      PassErrorsAreValueErrors(pos + neg, allSent);
      return filtered;
    }
    var neutral := Sample(filtered.value, picks);
    if neutral.Err? {
      return neutral;
    }
    var written := WriteLines(neutral.value);
    r := Ok(written);
  }

  /** The only error the exclusion passes raise is ValueError. */
  lemma {:induction false} PassErrorIsValueError(elem: string, sents: seq<string>, i: nat)
    ensures PassFrom(elem, sents, i).Err? ==> PassFrom(elem, sents, i).error == ValueError
    decreases |sents| - i
  {
    if i < |sents| {
      var next := Visit(elem, sents, i);
      if next.Ok? {
        PassErrorIsValueError(elem, next.value, i + 1);
      }
    }
  }

  lemma {:induction false} PassErrorsAreValueErrors(exclusions: seq<string>, sents: seq<string>)
    ensures ExcludeAll(exclusions, sents).Err? ==> ExcludeAll(exclusions, sents).error == ValueError
    decreases |exclusions|
  {
    if exclusions != [] {
      PassErrorIsValueError(exclusions[0], sents, 0);
      var next := PassFrom(exclusions[0], sents, 0);
      if next.Ok? {
        PassErrorsAreValueErrors(exclusions[1..], next.value);
      }
    }
  }

  /** The lines written for one group: `f'{label}, {sentence}\n'` per sentence. */
  function LabelledLines(tag: string, sentences: seq<string>): (r: seq<string>)
    ensures |r| == |sentences|
  {
    seq(|sentences|, k requires 0 <= k < |sentences| => tag + ", " + sentences[k] + "\n")
  }

  /** The label of a written line: the text before its first comma. */
  function LabelOf(line: string): string
    requires ',' in line
  {
    line[..IndexOf(line, ',')]
  }

  /** The sentence of a written line: after the first ", ", without the final line break. */
  function SentenceOf(line: string): string
    requires ',' in line && IndexOf(line, ',') + 2 < |line|
  {
    line[IndexOf(line, ',') + 2..|line| - 1]
  }

  /** A line written with a comma-free label gives back its label and sentence. */
  lemma LabelledLineRoundTrip(tag: string, sentence: string)
    requires ',' !in tag
    ensures var line := tag + ", " + sentence + "\n";
            && ',' in line && IndexOf(line, ',') + 2 < |line|
            && LabelOf(line) == tag && SentenceOf(line) == sentence
  {
    var line := tag + ", " + sentence + "\n";
    assert line[|tag|] == ',';
    assert line[..|tag|] == tag;
    IndexOfUnique(line, ',', |tag|);
    assert line[|tag| + 2..|line| - 1] == sentence;
  }

  /**
   * `create_labelled_data`: the lines it writes, or IndexError when `labels`
   * has fewer than three entries.
   */
  method CreateLabelledData(posLines: seq<string>, negLines: seq<string>, neutralLines: seq<string>, labels: seq<string>)
    returns (r: Result<seq<string>>)
    ensures r.Err? <==> |labels| < 3
    ensures r.Err? ==> r.error == IndexError
    ensures r.Ok? ==> r.value == LabelledLines(labels[0], Sentences(negLines))
                                 + LabelledLines(labels[1], Sentences(neutralLines))
                                 + LabelledLines(labels[2], Sentences(posLines))
  {
    var pos := GetSentencesFromTxt(posLines);
    var neg := GetSentencesFromTxt(negLines);
    var neutral := GetSentencesFromTxt(neutralLines);
    if |labels| < 3 {
      return Err(IndexError);
    }
    var negLabel := labels[0];
    var neutralLabel := labels[1];
    var posLabel := labels[2];
    var written: seq<string> := [];
    for k := 0 to |neg|
      invariant written == LabelledLines(negLabel, neg[..k])
    {
      written := written + [negLabel + ", " + neg[k] + "\n"];
    }
    assert neg[..|neg|] == neg;
    var afterNeg := written;
    for k := 0 to |neutral|
      invariant written == afterNeg + LabelledLines(neutralLabel, neutral[..k])
    {
      written := written + [neutralLabel + ", " + neutral[k] + "\n"];
    }
    assert neutral[..|neutral|] == neutral;
    var afterNeutral := written;
    for k := 0 to |pos|
      invariant written == afterNeutral + LabelledLines(posLabel, pos[..k])
    {
      written := written + [posLabel + ", " + pos[k] + "\n"];
    }
    assert pos[..|pos|] == pos;
    r := Ok(written);
  }

  /** The full output of `create_labelled_data` for three labels. */
  function LabelledData(posLines: seq<string>, negLines: seq<string>, neutralLines: seq<string>, labels: seq<string>): seq<string>
    requires |labels| >= 3
  {
    LabelledLines(labels[0], Sentences(negLines))
    + LabelledLines(labels[1], Sentences(neutralLines))
    + LabelledLines(labels[2], Sentences(posLines))
  }

  /** Every line of a group carries the group's label and gives back its sentence, in order. */
  lemma GroupLinesRoundTrip(tag: string, sentences: seq<string>)
    requires ',' !in tag
    ensures forall k :: 0 <= k < |sentences| ==>
              var line := LabelledLines(tag, sentences)[k];
              && ',' in line && IndexOf(line, ',') + 2 < |line|
              && LabelOf(line) == tag && SentenceOf(line) == sentences[k]
  {
    forall k | 0 <= k < |sentences|
      ensures var line := LabelledLines(tag, sentences)[k];
              && ',' in line && IndexOf(line, ',') + 2 < |line|
              && LabelOf(line) == tag && SentenceOf(line) == sentences[k]
    {
      LabelledLineRoundTrip(tag, sentences[k]);
    }
  }

  /**
   * The labelled file has one line per sentence: the negative group under
   * `labels[0]`, then the neutral group under `labels[1]`, then the positive
   * group under `labels[2]`.
   */
  lemma LabelledDataLayout(posLines: seq<string>, negLines: seq<string>, neutralLines: seq<string>, labels: seq<string>)
    requires |labels| >= 3
    ensures var out := LabelledData(posLines, negLines, neutralLines, labels);
            var a, b := |Sentences(negLines)|, |Sentences(neutralLines)|;
            && |out| == a + b + |Sentences(posLines)|
            && out[..a] == LabelledLines(labels[0], Sentences(negLines))
            && out[a..a + b] == LabelledLines(labels[1], Sentences(neutralLines))
            && out[a + b..] == LabelledLines(labels[2], Sentences(posLines))
  {
    var neg := LabelledLines(labels[0], Sentences(negLines));
    var neutral := LabelledLines(labels[1], Sentences(neutralLines));
    var pos := LabelledLines(labels[2], Sentences(posLines));
    var out := neg + neutral + pos;
    assert out[..|neg|] == neg;
    assert out[|neg|..|neg| + |neutral|] == neutral;
    assert out[|neg| + |neutral|..] == pos;
  }
}
