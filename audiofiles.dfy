/**
 * The directory-entry handling both evaluation loops share: which names are
 * audio files, the expected label `file.split('-')[1]`, and `os.path.join`.
 */
module AudioFiles {
  import opened PyStr
  import opened PyValues

  /** `file.endswith('.mp3') or file.endswith('.wav') or file.endswith('.ogg')` */
  predicate IsAudioFile(name: string) {
    EndsWith(name, ".mp3") || EndsWith(name, ".wav") || EndsWith(name, ".ogg")
  }

  /**
   * `file.split('-')[1]`: the text between the first `-` and the next `-` (or the
   * end of the name); IndexError when the name has no `-`.
   */
  function TargetLabel(name: string): (r: Result<string>)
    ensures r.Ok? <==> '-' in name
    ensures r.Err? ==> r.error == IndexError
    ensures r.Ok? ==>
              var tail := name[IndexOf(name, '-') + 1..];
              && '-' !in r.value
              && StartsWith(tail, r.value)
              && (|r.value| == |tail| || tail[|r.value|] == '-')
  {
    var fields := Split(name, '-');
    if |fields| < 2 then Err(IndexError)
    else
      var tail := name[IndexOf(name, '-') + 1..];
      assert fields[1] == Split(tail, '-')[0];
      Ok(fields[1])
  }

  /** Any name ending in `.wav`, `.mp3` or `.ogg` is an audio file. */
  lemma AudioExtensions(stem: string)
    ensures IsAudioFile(stem + ".wav") && IsAudioFile(stem + ".mp3") && IsAudioFile(stem + ".ogg")
  {
    assert (stem + ".wav")[|stem|..] == ".wav";
    assert (stem + ".mp3")[|stem|..] == ".mp3";
    assert (stem + ".ogg")[|stem|..] == ".ogg";
  }

  /**
   * In a name `head-intent-rest` (or `head-intent`) whose head and intent hold
   * no `-`, the target is the intent: `3-greeting-test.wav` is labelled `greeting`.
   */
  lemma TargetLabelOfDashedName(head: string, intent: string, rest: string)
    requires '-' !in head && '-' !in intent
    requires rest == [] || rest[0] == '-'
    ensures TargetLabel(head + "-" + intent + rest) == Ok(intent)
  {
    var name := head + "-" + intent + rest;
    assert name[|head|] == '-' && name[..|head|] == head;
    IndexOfUnique(name, '-', |head|);
    var tail := name[|head| + 1..];
    assert tail == intent + rest;
    var r := TargetLabel(name).value;
    assert forall k :: 0 <= k < |intent| ==> tail[k] == intent[k];
    assert forall k :: 0 <= k < |r| ==> tail[k] == r[k] && r[k] != '-';
    assert rest != [] ==> tail[|intent|] == '-';
    assert |r| == |intent|;
    assert r == tail[..|intent|] == intent;
  }

  /** `os.path.join(path, file)` for a file name from `os.listdir`. */
  function JoinPath(path: string, file: string): string {
    if StartsWith(file, "/") then file
    else if path == [] || EndsWith(path, "/") then path + file
    else path + "/" + file
  }

  /** The joined path names the file: it ends with the file name, after a separator unless `path` is empty. */
  lemma JoinPathEndsWithFile(path: string, file: string)
    ensures EndsWith(JoinPath(path, file), file)
    ensures !StartsWith(file, "/") && path != [] ==>
              var r := JoinPath(path, file);
              |r| > |file| && r[|r| - |file| - 1] == '/'
  {
    var r := JoinPath(path, file);
    if !StartsWith(file, "/") && path != [] {
      if EndsWith(path, "/") {
        assert r[|r| - |file| - 1] == path[|path| - 1];
      } else {
        assert r[|r| - |file| - 1] == '/';
      }
    }
    assert r[|r| - |file|..] == file;
  }
}
