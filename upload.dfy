/** The upload-name check `allowed_file` of app.py. */
module Upload {
  import opened PyStr

  /** `ALLOWED_EXTENSIONS`. */
  const AllowedExtensions: set<string> := {"wav"}

  /** `"." in filename and filename.rsplit(".", 1)[1].lower() in ALLOWED_EXTENSIONS`;
      `and` short-circuits, so the split is only indexed when a dot exists. */
  predicate AllowedFile(filename: string)
  {
    '.' in filename && Lower(RSplitOnce(filename, '.')[1]) in AllowedExtensions
  }

  /** The text after the last dot, when there is a dot. */
  lemma ExtensionAfterLastDot(filename: string)
    requires '.' in filename
    ensures RSplitOnce(filename, '.')[1] == filename[LastIndexOf(filename, '.') + 1..]
  {
  }

  lemma LowerKeepsDot(c: char)
    ensures c == '.' ==> LowerChar(c) == '.'
  {
  }

  /** An accepted name ends in a dot and three characters lower-casing to `wav`. */
  lemma AcceptedHasWavSuffix(filename: string)
    requires AllowedFile(filename)
    ensures |filename| >= 4 && filename[|filename| - 4] == '.'
    ensures Lower(filename[|filename| - 3..]) == "wav"
  {
    ExtensionAfterLastDot(filename);
    var i := LastIndexOf(filename, '.');
    assert |filename[i + 1..]| == 3;
  }

  /** A name ending in a dot and three characters lower-casing to `wav` has
      that dot as its last one, so it is accepted. */
  lemma WavSuffixAccepted(filename: string)
    requires |filename| >= 4 && filename[|filename| - 4] == '.'
    requires Lower(filename[|filename| - 3..]) == "wav"
    ensures AllowedFile(filename)
  {
    var n := |filename|;
    var ext := filename[n - 3..];
    assert '.' !in ext by {
      forall k | 0 <= k < 3 ensures ext[k] != '.' {
        LowerKeepsDot(ext[k]);
      }
    }
    ExtensionAfterLastDot(filename);
  }

  /** The check accepts exactly the names that end in a dot followed by three
      characters that lower-case to `wav`. */
  lemma AllowedFileIffWavSuffix(filename: string)
    ensures AllowedFile(filename) <==>
              |filename| >= 4 && filename[|filename| - 4] == '.'
              && Lower(filename[|filename| - 3..]) == "wav"
  {
    if AllowedFile(filename) {
      AcceptedHasWavSuffix(filename);
    }
    if |filename| >= 4 && filename[|filename| - 4] == '.'
       && Lower(filename[|filename| - 3..]) == "wav" {
      WavSuffixAccepted(filename);
    }
  }

  /** Sample names: the extension is compared case-insensitively. */
  lemma UpperCaseWavAccepted()
    ensures AllowedFile("x.WAV") && AllowedFile("a.b.Wav")
  {
    WavSuffixAccepted("x.WAV");
    WavSuffixAccepted("a.b.Wav");
  }

  /** A name without a dot is refused, even one spelled `wav`. */
  lemma NoDotRefused()
    ensures !AllowedFile("wav")
  {
  }

  /** Only the text after the last dot counts: `x.wav.mp3` is refused. */
  lemma LastExtensionCounts()
    ensures !AllowedFile("x.wav.mp3")
  {
    AllowedFileIffWavSuffix("x.wav.mp3");
  }
}
