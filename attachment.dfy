/** The file name and `Content-Disposition` header that `/api/download` sends
    with the relayed video (backend/main.py, `download_video`). */
module Attachment {
  import opened PyStr

  datatype Option<T> = None | Some(value: T)

  const DefaultName := "video"
  const Extension := ".mp4"
  const DispositionPrefix := "attachment; filename=\""

  /** `(filename or "video").strip().replace("/", "-")`: an absent or empty
      query parameter falls back to "video" before anything else happens. */
  function BaseName(filename: Option<string>): (b: string)
    ensures '/' !in b
    ensures Trimmed(b)
  {
    var given := if filename.Some? && filename.value != "" then filename.value else DefaultName;
    var stripped := Strip(given);
    ReplaceKeepsTrimmed(stripped);
    ReplaceSlash(stripped)
  }

  /** The sanitised name: the base name, extended with ".mp4" unless it
      already ends in ".mp4" in any letter case. */
  function SafeName(filename: Option<string>): (name: string)
    ensures '/' !in name
    ensures EndsWithMp4(name)
    ensures Trimmed(name)
    ensures name == BaseName(filename) || name == BaseName(filename) + Extension
  {
    var b := BaseName(filename);
    if EndsWithMp4(b) then b else b + Extension
  }

  /** `attachment; filename="<name>"`: the name sits between the fixed prefix
      and a closing quote, where it can be read back from. */
  function Disposition(name: string): (h: string)
    ensures |h| == |DispositionPrefix| + |name| + 1
    ensures h[..|DispositionPrefix|] == DispositionPrefix
    ensures h[|DispositionPrefix|..|h| - 1] == name
    ensures h[|h| - 1] == '"'
  {
    DispositionPrefix + name + "\""
  }

  /** Without a file name, or with an empty one, the download is "video.mp4". */
  lemma DefaultsToVideo(filename: Option<string>)
    requires filename == None || filename == Some("")
    ensures SafeName(filename) == DefaultName + Extension
  {
    var name := DefaultName;
    CleanNameGainsExtension(name);
    assert BaseName(filename) == BaseName(Some(name));
  }

  /** A clean name that does not end in ".mp4" is sent with ".mp4" appended. */
  lemma CleanNameGainsExtension(name: string)
    requires name != "" && '/' !in name && Trimmed(name) && !EndsWithMp4(name)
    ensures SafeName(Some(name)) == name + Extension
  {
    CleanNameIsItsOwnBase(name);
  }

  /** The ".mp4" suffix is added exactly when the base name lacks it, so a
      name ending in ".mp4" or ".MP4" is never extended twice. */
  lemma ExtensionOnlyWhenMissing(filename: Option<string>)
    ensures SafeName(filename) == BaseName(filename) <==> EndsWithMp4(BaseName(filename))
    ensures !EndsWithMp4(BaseName(filename)) ==> SafeName(filename) == BaseName(filename) + Extension
  {
  }

  /** A name made only of whitespace is not replaced by the default: it strips
      to "" and the download is named ".mp4". */
  lemma BlankNameKeepsOnlyExtension(s: string)
    requires s != "" && AllSpace(s)
    ensures SafeName(Some(s)) == Extension
  {
  }

  /** Sanitising a sanitised name gives it back unchanged. */
  lemma SafeNameIdempotent(filename: Option<string>)
    ensures SafeName(Some(SafeName(filename))) == SafeName(filename)
  {
    CleanNameIsItsOwnBase(SafeName(filename));
  }

  /** A non-empty name without slashes or surrounding whitespace is its own
      base name. */
  lemma CleanNameIsItsOwnBase(name: string)
    requires name != "" && '/' !in name && Trimmed(name)
    ensures BaseName(Some(name)) == name
  {
    StripKeepsTrimmed(name);
    ReplaceWithoutSlash(name);
  }

  /** A plain name gains the extension: "my video" is sent as "my video.mp4". */
  lemma PlainNameGainsExtension()
    ensures SafeName(Some("my video")) == "my video" + Extension
  {
    var name := "my video";
    assert BaseName(Some(name)) == name by {
      assert Trimmed(name);
      CleanNameIsItsOwnBase(name);
    }
    assert !EndsWithMp4(name);
  }

  /** A slash becomes a hyphen: "a/b" is sent as "a-b.mp4". */
  lemma SlashBecomesHyphen()
    ensures SafeName(Some("a/b")) == "a-b" + Extension
  {
    var given := "a/b";
    assert Trimmed(given);
    StripKeepsTrimmed(given);
    var r := ReplaceSlash(given);
    assert r[0] == 'a' && r[1] == '-' && r[2] == 'b';
    assert r == "a-b";
  }

  /** Surrounding blanks go and a ".mp4" in any case is kept as it is:
      " clip.MP4 " is sent as "clip.MP4", and so is every such padded name. */
  lemma PaddedMp4Kept(core: string)
    requires core != "" && Trimmed(core) && '/' !in core && EndsWithMp4(core)
    ensures SafeName(Some(" " + core + " ")) == core
  {
    assert BaseName(Some(" " + core + " ")) == core by {
      StripPadded(core);
      ReplaceWithoutSlash(core);
    }
  }

  /** The header of a download always names a ".mp4" file without slashes. */
  lemma DispositionNamesSafeFile(filename: Option<string>)
    ensures var h := Disposition(SafeName(filename));
      && h[..|DispositionPrefix|] == DispositionPrefix
      && var quoted := h[|DispositionPrefix|..|h| - 1];
      && quoted == SafeName(filename)
      && '/' !in quoted && EndsWithMp4(quoted)
  {
  }

  /** The header can be encoded as Latin-1 exactly when the name can: the
      prefix and the closing quote are ASCII. */
  lemma DispositionLatin1(name: string)
    ensures Latin1(Disposition(name)) <==> Latin1(name)
  {
    var h := Disposition(name);
    assert forall k :: 0 <= k < |name| ==> name[k] == h[|DispositionPrefix| + k];
  }

  /** A file name made of Latin-1 characters (or none at all) gives a header
      that can be encoded as Latin-1. */
  lemma Latin1NameIsHeaderSafe(filename: Option<string>)
    requires filename.Some? ==> Latin1(filename.value)
    ensures Latin1(Disposition(SafeName(filename)))
  {
    var b := BaseName(filename);
    BaseNameKeepsLatin1(filename);
    if !EndsWithMp4(b) {
      assert Latin1(Extension);
      ConcatLatin1(b, Extension);
    }
    DispositionLatin1(SafeName(filename));
  }

  /** The base name of a Latin-1 file name is Latin-1. */
  lemma BaseNameKeepsLatin1(filename: Option<string>)
    requires filename.Some? ==> Latin1(filename.value)
    ensures Latin1(BaseName(filename))
  {
    var given := if filename.Some? && filename.value != "" then filename.value else DefaultName;
    assert Latin1(given) by {
      assert Latin1(DefaultName);
    }
    CleaningKeepsLatin1(given);
  }

  /** A character above U+00FF that is not whitespace survives the
      sanitiser, so the header built from it cannot be encoded as Latin-1. */
  lemma WideCharacterRefused(filename: Option<string>, k: nat)
    requires filename.Some? && k < |filename.value|
    requires filename.value[k] > '\U{ff}' && !IsSpace(filename.value[k])
    ensures !Latin1(Disposition(SafeName(filename)))
  {
    var c := filename.value[k];
    StripKeepsInner(filename.value, k);
    var stripped := Strip(filename.value);
    var j :| 0 <= j < |stripped| && stripped[j] == c;
    assert BaseName(filename)[j] == c;
    assert SafeName(filename)[j] == c;
    DispositionLatin1(SafeName(filename));
  }

  /** Replacing slashes in a string without any changes nothing. */
  lemma ReplaceWithoutSlash(s: string)
    requires '/' !in s
    ensures ReplaceSlash(s) == s
  {
    var r := ReplaceSlash(s);
    assert forall k :: 0 <= k < |s| ==> r[k] == s[k];
  }
}
