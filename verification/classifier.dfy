/**
 * The classifier: which paths are audio files, and the MIME type served for
 * each extension. The library and the binary carry identical copies of both
 * functions; they are modelled once.
 */
module Classifier {
  import opened Wrappers
  import opened Types

  /** The whitelist of extensions, compared case-sensitively. */
  const AudioExtensions: seq<string> := ["m4b", "m4a", "mp3", "flac", "wav", "opus"]

  /** Index of the last '.' in `s`, if there is one. */
  function LastDot(s: string): (r: Option<nat>)
    ensures r.Some? ==> r.value < |s| && s[r.value] == '.'
    ensures r.Some? ==> forall j :: r.value < j < |s| ==> s[j] != '.'
    ensures r.None? ==> forall j :: 0 <= j < |s| ==> s[j] != '.'
  {
    if s == [] then None
    else if s[|s| - 1] == '.' then Some(|s| - 1)
    else LastDot(s[..|s| - 1])
  }

  /**
   * `OsStr` extension of a file name as `Path::extension` computes it: the
   * part after the last '.', unless the name is "..", has no '.', or its only
   * '.' is the leading one.
   */
  function NameExtension(name: string): Option<string>
  {
    if name == ".." then None
    else match LastDot(name)
      case None => None
      case Some(i) => if i == 0 then None else Some(name[i + 1..])
  }

  /** `Path::file_name`: the last component. */
  function FileName(p: Path): Option<string>
  {
    if p == [] then None else Some(p[|p| - 1])
  }

  /** `Path::extension`. */
  function Extension(p: Path): Option<string>
  {
    match FileName(p)
    case None => None
    case Some(name) => NameExtension(name)
  }

  /** `name` is a non-empty stem, a '.', and then exactly `ext`. */
  predicate HasSuffixExtension(name: string, ext: string)
  {
    |name| >= |ext| + 2 && name[|name| - |ext| - 1..] == "." + ext
  }

  /** `is_audiofile`: the path has an extension and it is on the whitelist. */
  function IsAudioFile(p: Path): (r: bool)
    ensures r ==> Extension(p).Some?
  {
    match Extension(p)
    case None => false
    case Some(ext) => ext in AudioExtensions
  }

  /**
   * A path is an audio file exactly when its file name is a non-empty stem,
   * a '.', and one of the six whitelisted extensions; nothing else (no
   * extension, another extension, another letter case) is accepted.
   */
  lemma IsAudioFileIff(p: Path)
    ensures IsAudioFile(p) <==>
      |p| > 0 && exists k :: 0 <= k < |AudioExtensions| && HasSuffixExtension(p[|p| - 1], AudioExtensions[k])
  {
    if |p| > 0 {
      var name := p[|p| - 1];
      forall k | 0 <= k < |AudioExtensions|
        ensures NameExtension(name) == Some(AudioExtensions[k]) <==> HasSuffixExtension(name, AudioExtensions[k])
      {
        ExtensionCharacterization(name, AudioExtensions[k]);
      }
    }
  }

  /** The extension of a name is exactly the text after its last '.', given a non-empty stem. */
  lemma ExtensionCharacterization(name: string, ext: string)
    requires |ext| > 0 && '.' !in ext
    ensures NameExtension(name) == Some(ext) <==> HasSuffixExtension(name, ext)
  {
    if HasSuffixExtension(name, ext) {
      var i := |name| - |ext| - 1;
      assert name[i] == '.';
      assert forall j :: i < j < |name| ==> name[j] == ext[j - i - 1];
      var d := LastDot(name);
      assert d == Some(i);
      assert name[i + 1..] == ext;
    }
    if NameExtension(name) == Some(ext) {
      var i := LastDot(name).value;
      assert i > 0 && name[i + 1..] == ext;
      assert |name| == i + 1 + |ext|;
      assert name[i..] == [name[i]] + name[i + 1..];
      assert name[|name| - |ext| - 1..] == name[i..];
    }
  }

  /**
   * `extension_to_mime`: "m4b" and "m4a" are served as MPEG-4 audio, every
   * other extension as "audio/" followed by the extension itself.
   */
  function ExtensionToMime(ext: string): (mime: string)
    ensures ext == "m4b" || ext == "m4a" ==> mime == "audio/mp4"
    ensures ext != "m4b" && ext != "m4a" ==> |mime| == 6 + |ext| && mime[6..] == ext
    ensures mime[..6] == "audio/"
  {
    match ext
    case "m4b" => "audio/mp4"
    case "m4a" => "audio/mp4"
    case _ => "audio/" + ext
  }

  /**
   * Two extensions share a MIME type only when they are equal or are the two
   * MPEG-4 extensions; every MIME type starts with "audio/".
   */
  lemma {:induction false} MimeDeterminesExtension(x: string, y: string)
    ensures ExtensionToMime(x)[..6] == "audio/"
    ensures ExtensionToMime(x) == ExtensionToMime(y) <==>
      x == y || (x in ["m4b", "m4a"] && y in ["m4b", "m4a"]) ||
      (x in ["m4b", "m4a"] && y == "mp4") || (x == "mp4" && y in ["m4b", "m4a"])
  {
  }

  /** The MIME type of every audio path is one of five fixed strings. */
  lemma AudioMimes(p: Path)
    requires IsAudioFile(p)
    ensures ExtensionToMime(Extension(p).value) in
      ["audio/mp4", "audio/mp3", "audio/flac", "audio/wav", "audio/opus"]
  {
    var ext := Extension(p).value;
    assert ext in AudioExtensions;
    var mime := ExtensionToMime(ext);
    if ext == "mp3" {
      assert mime == "audio/" + "mp3" == "audio/mp3";
    } else if ext == "flac" {
      assert mime == "audio/" + "flac" == "audio/flac";
    } else if ext == "wav" {
      assert mime == "audio/" + "wav" == "audio/wav";
    } else if ext == "opus" {
      assert mime == "audio/" + "opus" == "audio/opus";
    } else {
      assert ext == "m4b" || ext == "m4a";
    }
  }
}
