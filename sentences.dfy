/**
 * `get_sentences_from_txt` of sentiment_analysis.py: the sentences of a
 * Rhasspy sentences file are its lines without a `[` (intent headers), with
 * trailing whitespace removed, and not blank. The file is given as its lines,
 * each with its line break.
 */
module SentenceFile {
  import opened PyStr

  /** A line the loop keeps: no `[`, and not blank once right-stripped. */
  predicate Kept(line: string) {
    '[' !in line && RStrip(line) != ""
  }

  /** The sentences of the first `|lines|` lines, in file order. */
  function Sentences(lines: seq<string>): seq<string>
    decreases |lines|
  {
    if lines == [] then []
    else
      var last := lines[|lines| - 1];
      Sentences(lines[..|lines| - 1]) + (if Kept(last) then [RStrip(last)] else [])
  }

  /** `get_sentences_from_txt(filepath)` over the file's lines. */
  method GetSentencesFromTxt(lines: seq<string>) returns (result: seq<string>)
    ensures result == Sentences(lines)
  {
    result := [];
    for i := 0 to |lines|
      invariant result == Sentences(lines[..i])
    {
      var line := lines[i];
      assert lines[..i + 1][..i] == lines[..i];
      if '[' !in line {
        var temp := RStrip(line);
        if temp != "" {
          result := result + [temp];
        }
      }
    }
    assert lines[..|lines|] == lines;
  }

  /** Right-stripping a string that does not end in whitespace changes nothing. */
  lemma RStripOfStripped(s: string)
    requires s == [] || !IsSpace(s[|s| - 1])
    ensures RStrip(s) == s
  {
  }

  lemma RStripIdempotent(s: string)
    ensures RStrip(RStrip(s)) == RStrip(s)
  {
    RStripOfStripped(RStrip(s));
  }

  /** A kept line's sentence is itself kept, unchanged. */
  lemma KeptSentenceStable(line: string)
    requires Kept(line)
    ensures Kept(RStrip(line)) && RStrip(RStrip(line)) == RStrip(line)
  {
    RStripIdempotent(line);
    var r := RStrip(line);
    forall k | 0 <= k < |r|
      ensures r[k] != '['
    {
      assert r[k] == line[k] && line[k] in line;
    }
  }

  /**
   * Every sentence is free of `[`, not empty, ends in a non-space character,
   * and there are no more sentences than lines.
   */
  lemma {:induction false} SentencesClean(lines: seq<string>)
    ensures |Sentences(lines)| <= |lines|
    ensures forall k :: 0 <= k < |Sentences(lines)| ==>
              && '[' !in Sentences(lines)[k]
              && Sentences(lines)[k] != ""
              && !IsSpace(Sentences(lines)[k][|Sentences(lines)[k]| - 1])
    decreases |lines|
  {
    if lines != [] {
      var n := |lines| - 1;
      SentencesClean(lines[..n]);
      if Kept(lines[n]) {
        KeptSentenceStable(lines[n]);
      }
    }
  }

  /** The positions of the kept lines, in increasing order. */
  function KeptIndices(lines: seq<string>): seq<nat>
    decreases |lines|
  {
    if lines == [] then []
    else
      var n := |lines| - 1;
      KeptIndices(lines[..n]) + (if Kept(lines[n]) then [n] else [])
  }

  /**
   * The sentences are exactly the right-stripped kept lines, in file order:
   * the k-th sentence comes from the k-th kept line (so it is a prefix of that
   * line and keeps its leading whitespace), the positions increase, and every
   * kept line appears.
   */
  lemma {:induction false} SentencesAreKeptLines(lines: seq<string>)
    ensures var ks := KeptIndices(lines);
            && |ks| == |Sentences(lines)|
            && (forall k :: 0 <= k < |ks| ==> ks[k] < |lines| && Sentences(lines)[k] == RStrip(lines[ks[k]]))
            && (forall k :: 0 <= k < |ks| ==> StartsWith(lines[ks[k]], Sentences(lines)[k]))
            && (forall a, b :: 0 <= a < b < |ks| ==> ks[a] < ks[b])
            && (forall j :: 0 <= j < |lines| ==> (j in ks <==> Kept(lines[j])))
    decreases |lines|
  {
    if lines != [] {
      var n := |lines| - 1;
      var prefix := lines[..n];
      SentencesAreKeptLines(prefix);
      var ks := KeptIndices(lines);
      var out := Sentences(lines);
      forall k | 0 <= k < |ks|
        ensures ks[k] < |lines| && out[k] == RStrip(lines[ks[k]])
      {
        if k < |KeptIndices(prefix)| {
          assert ks[k] == KeptIndices(prefix)[k] && out[k] == Sentences(prefix)[k];
          assert lines[ks[k]] == prefix[ks[k]];
        }
      }
      forall j | 0 <= j < |lines|
        ensures j in ks <==> Kept(lines[j])
      {
        if j < n {
          assert lines[j] == prefix[j];
          assert j in ks <==> j in KeptIndices(prefix);
        }
      }
    }
  }

  /** Every line with no `[` that is not blank contributes its sentence. */
  lemma KeptLineAppears(lines: seq<string>, j: nat)
    requires j < |lines| && Kept(lines[j])
    ensures RStrip(lines[j]) in Sentences(lines)
  {
    SentencesAreKeptLines(lines);
    var ks := KeptIndices(lines);
    var k :| 0 <= k < |ks| && ks[k] == j;
    assert Sentences(lines)[k] == RStrip(lines[j]);
  }

  /** Filtering the sentences again gives them back unchanged. */
  lemma {:induction false} SentencesIdempotent(lines: seq<string>)
    ensures Sentences(Sentences(lines)) == Sentences(lines)
    decreases |lines|
  {
    if lines != [] {
      var n := |lines| - 1;
      var prev := Sentences(lines[..n]);
      SentencesIdempotent(lines[..n]);
      if Kept(lines[n]) {
        var x := RStrip(lines[n]);
        KeptSentenceStable(lines[n]);
        assert (prev + [x])[..|prev|] == prev;
      } else {
        assert Sentences(lines) == prev;
      }
    }
  }
}
