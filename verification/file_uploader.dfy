/** The pure fragments of src/components/upload/FileUploader.jsx: the rule
    `handleFileSelect` applies to a chosen file, the extension taken from
    its name for the storage path, the mapping of OCR progress onto the
    progress bar, and the label and step indicators drawn for a progress
    value. React state is modelled as a value passed in and returned. */
module FileUploader {
  import opened Js

  /** The browser `File` fields the uploader reads. */
  datatype SelectedFile = SelectedFile(name: string, mimeType: string, size: nat)

  /** The `file` and `error` state hooks. */
  datatype UploaderState = UploaderState(file: Option<SelectedFile>, error: Option<string>)

  const ValidTypes: seq<string> := ["application/pdf", "image/jpeg", "image/jpg", "image/png"]

  /** 10 MiB, in bytes. */
  const MaxFileSize: nat := 10 * 1024 * 1024

  const TypeError: string := "Please upload a PDF or image file (JPG, PNG)"
  const SizeError: string := "File size must be less than 10MB"

  predicate HasValidType(f: SelectedFile) {
    f.mimeType in ValidTypes
  }

  predicate HasValidSize(f: SelectedFile) {
    f.size <= MaxFileSize
  }

  /** The file the uploader is willing to hold: both conditions, in any order. */
  predicate Acceptable(f: SelectedFile) {
    HasValidSize(f) && HasValidType(f)
  }

  /** `handleFileSelect`; `selected` is `e.target.files[0]`, None when the
      picker was dismissed. */
  function HandleFileSelect(state: UploaderState, selected: Option<SelectedFile>): (next: UploaderState)
    ensures selected.None? ==> next == state
    ensures selected.Some? ==> (next.error.None? <==> Acceptable(selected.value))
    ensures selected.Some? && Acceptable(selected.value) ==> next.file == selected
    ensures !(selected.Some? && Acceptable(selected.value)) ==> next.file == state.file
    ensures selected.Some? && !HasValidType(selected.value) ==> next.error == Some(TypeError)
    ensures (selected.Some? && HasValidType(selected.value) && !HasValidSize(selected.value))
              ==> next.error == Some(SizeError)
  {
    match selected
    case None => state
    case Some(f) =>
      if f.mimeType !in ValidTypes then state.(error := Some(TypeError))
      else if f.size > MaxFileSize then state.(error := Some(SizeError))
      else UploaderState(Some(f), None)
  }

  /** The limit is inclusive: a file of exactly 10 MiB is held. */
  lemma ExactlyTenMebibytesAccepted(state: UploaderState, name: string)
    ensures HandleFileSelect(state, Some(SelectedFile(name, "image/png", 10485760)))
         == UploaderState(Some(SelectedFile(name, "image/png", 10485760)), None)
  {
  }

  /** The type is checked first: an oversized text file gets the type error. */
  lemma OversizedWrongTypeGetsTypeError(state: UploaderState, name: string)
    ensures HandleFileSelect(state, Some(SelectedFile(name, "text/plain", 10485761))).error == Some(TypeError)
  {
  }

  /** `name.split('.')`: the pieces between separators, at least one. */
  function Split(s: string, sep: char): (parts: seq<string>)
    ensures |parts| >= 1
    decreases |s|
  {
    if |s| == 0 then [""]
    else
      var rest := Split(s[1..], sep);
      if s[0] == sep then [""] + rest
      else [[s[0]] + rest[0]] + rest[1..]
  }

  predicate SepFree(s: string, sep: char) {
    forall j :: 0 <= j < |s| ==> s[j] != sep
  }

  /** No piece holds the separator. */
  lemma {:induction false} SplitPiecesSepFree(s: string, sep: char)
    ensures forall k :: 0 <= k < |Split(s, sep)| ==> SepFree(Split(s, sep)[k], sep)
    decreases |s|
  {
    if |s| > 0 {
      SplitPiecesSepFree(s[1..], sep);
      var rest := Split(s[1..], sep);
      var parts := Split(s, sep);
      if s[0] == sep {
        assert forall k :: 1 <= k < |parts| ==> parts[k] == rest[k - 1];
      } else {
        var first := [s[0]] + rest[0];
        assert forall j :: 1 <= j < |first| ==> first[j] == rest[0][j - 1];
        assert forall k :: 1 <= k < |parts| ==> parts[k] == rest[k];
      }
    }
  }

  /** `pop()`: the last piece. */
  function LastPiece(s: string, sep: char): string {
    var parts := Split(s, sep);
    parts[|parts| - 1]
  }

  /** How the first character changes the number of pieces and the last one. */
  lemma LastPieceStep(s: string, sep: char)
    requires |s| > 0
    ensures s[0] == sep ==> |Split(s, sep)| > 1 && LastPiece(s, sep) == LastPiece(s[1..], sep)
    ensures s[0] != sep && |Split(s[1..], sep)| == 1 ==>
              |Split(s, sep)| == 1 && LastPiece(s, sep) == [s[0]] + LastPiece(s[1..], sep)
    ensures s[0] != sep && |Split(s[1..], sep)| > 1 ==>
              |Split(s, sep)| > 1 && LastPiece(s, sep) == LastPiece(s[1..], sep)
  {
  }

  /** The last piece is the whole text exactly when there is one piece. */
  lemma {:induction false} LastPieceLength(s: string, sep: char)
    ensures |LastPiece(s, sep)| <= |s|
    ensures |Split(s, sep)| == 1 ==> LastPiece(s, sep) == s
    ensures |Split(s, sep)| > 1 ==> |LastPiece(s, sep)| < |s|
    decreases |s|
  {
    if |s| > 0 {
      LastPieceLength(s[1..], sep);
      LastPieceStep(s, sep);
      if s[0] != sep && |Split(s[1..], sep)| == 1 {
        assert [s[0]] + s[1..] == s;
      }
    }
  }

  /** The last piece is the text after the last separator, or the whole
      text when there is none. */
  lemma {:induction false} LastPieceIsFinalSegment(s: string, sep: char)
    ensures |LastPiece(s, sep)| <= |s| && LastPiece(s, sep) == s[|s| - |LastPiece(s, sep)|..]
    ensures |LastPiece(s, sep)| < |s| ==> s[|s| - |LastPiece(s, sep)| - 1] == sep
    decreases |s|
  {
    LastPieceLength(s, sep);
    if |s| > 0 {
      var t := s[1..];
      LastPieceIsFinalSegment(t, sep);
      LastPieceLength(t, sep);
      LastPieceStep(s, sep);
      var last := LastPiece(t, sep);
      assert t[|t| - |last|..] == s[|s| - |last|..];
      if s[0] == sep {
        if |last| < |t| {
          assert s[|s| - |last| - 1] == t[|t| - |last| - 1];
        }
      } else if |Split(t, sep)| > 1 {
        assert s[|s| - |last| - 1] == t[|t| - |last| - 1];
      }
    }
  }

  /** `parts.join(sep)`. */
  function Join(parts: seq<string>, sep: char): string
    requires |parts| >= 1
    decreases |parts|
  {
    if |parts| == 1 then parts[0] else parts[0] + [sep] + Join(parts[1..], sep)
  }

  /** Prepending a character to the first piece prepends it to the join. */
  lemma JoinPrepend(c: char, parts: seq<string>, sep: char)
    requires |parts| >= 1
    ensures Join([[c] + parts[0]] + parts[1..], sep) == [c] + Join(parts, sep)
  {
    var parts' := [[c] + parts[0]] + parts[1..];
    if |parts| > 1 {
      assert parts'[1..] == parts[1..];
      assert ([c] + parts[0]) + [sep] + Join(parts[1..], sep) == [c] + (parts[0] + [sep] + Join(parts[1..], sep));
    }
  }

  /** Each character of the name reappears in front of the join of the
      rest's pieces. */
  lemma JoinSplitStep(s: string, sep: char)
    requires |s| > 0
    ensures Join(Split(s, sep), sep) == [s[0]] + Join(Split(s[1..], sep), sep)
  {
    var rest := Split(s[1..], sep);
    if s[0] == sep {
      var parts := [""] + rest;
      assert parts[1..] == rest;
    } else {
      JoinPrepend(s[0], rest, sep);
    }
  }

  /** Splitting loses nothing: joining the pieces gives the name back. */
  lemma {:induction false} JoinSplit(s: string, sep: char)
    ensures Join(Split(s, sep), sep) == s
    decreases |s|
  {
    if |s| > 0 {
      JoinSplit(s[1..], sep);
      JoinSplitStep(s, sep);
      assert s == [s[0]] + s[1..];
    }
  }

  /** `file.name.split('.').pop()`: the extension used in the storage name. */
  function FileExtension(name: string): (ext: string)
    ensures forall j :: 0 <= j < |ext| ==> ext[j] != '.'
    ensures |ext| <= |name| && ext == name[|name| - |ext|..]
    ensures |ext| < |name| ==> name[|name| - |ext| - 1] == '.'
  {
    SplitPiecesSepFree(name, '.');
    LastPieceIsFinalSegment(name, '.');
    LastPiece(name, '.')
  }

  /** The extension is the text after the last dot: appending `.ext` to
      any base name gives back ext, whatever dots the base holds. */
  lemma ExtensionOfDottedName(base: string, ext: string)
    requires forall j :: 0 <= j < |ext| ==> ext[j] != '.'
    ensures FileExtension(base + "." + ext) == ext
  {
    var name := base + "." + ext;
    var r := FileExtension(name);
    assert name[|name| - |ext| - 1] == '.';
    assert forall j :: 0 <= j < |ext| ==> name[|name| - |ext| + j] == ext[j];
    assert |r| == |ext|;
    assert r == name[|name| - |ext|..] == ext;
  }

  /** A name without a dot is its own extension. */
  lemma ExtensionOfUndottedName(name: string)
    requires forall j :: 0 <= j < |name| ==> name[j] != '.'
    ensures FileExtension(name) == name
  {
  }

  /** `Math.round(x)` for x = 2p/5, which for whole p is never a half, so
      `round(p * 0.4)` is the integer nearest to 2p/5. */
  function RoundTwoFifths(p: int): int {
    (4 * p + 5) / 10
  }

  /** The progress shown while OCR reports `p` percent. */
  function OcrStageProgress(p: int): (shown: int)
    ensures 10 * (shown - 30) - 5 <= 4 * p < 10 * (shown - 30) + 5
  {
    30 + RoundTwoFifths(p)
  }

  /** The OCR stage stays inside its band of the bar: from 30 to 70. */
  lemma OcrStageInBand(p: int)
    requires 0 <= p <= 100
    ensures 30 <= OcrStageProgress(p) <= 70
    ensures p == 0 ==> OcrStageProgress(p) == 30
    ensures p == 100 ==> OcrStageProgress(p) == 70
  {
  }

  /** More OCR progress never moves the bar back. */
  lemma OcrStageMonotone(p: int, q: int)
    requires p <= q
    ensures OcrStageProgress(p) <= OcrStageProgress(q)
  {
  }

  datatype Stage = Uploading | Extracting | Analyzing | Complete

  /** The stage the label under the bar names for a progress value. */
  function LabelStage(progress: int): (s: Stage)
    ensures s == Uploading <==> progress < 30
    ensures s == Extracting <==> 30 <= progress < 75
    ensures s == Analyzing <==> 75 <= progress < 100
    ensures s == Complete <==> 100 <= progress
  {
    if progress < 30 then Uploading
    else if progress < 75 then Extracting
    else if progress < 100 then Analyzing
    else Complete
  }

  function ProgressLabel(progress: int): string {
    match LabelStage(progress)
    case Uploading => "Uploading file..."
    case Extracting => "Extracting text from document..."
    case Analyzing => "Analyzing with AI..."
    case Complete => "Complete!"
  }

  /** The four labels are distinct, so each progress value gets exactly one. */
  lemma LabelsDistinct(p: int, q: int)
    ensures ProgressLabel(p) == ProgressLabel(q) <==> LabelStage(p) == LabelStage(q)
  {
  }

  /** One of the three `ProgressStep` indicators. */
  datatype StepState = StepState(completed: bool, active: bool)

  /** The steps as written: upload, OCR, AI analysis. */
  function Steps(progress: int): (steps: seq<StepState>)
    ensures |steps| == 3
  {
    [StepState(progress > 30, progress <= 30),
     StepState(progress > 75, progress > 30 && progress <= 75),
     StepState(progress == 100, progress > 75 && progress < 100)]
  }

  /** At any progress value at most one step is active, and no step is both
      completed and active. */
  lemma StepsExclusive(progress: int)
    ensures forall k, j :: 0 <= k < j < 3 ==> !(Steps(progress)[k].active && Steps(progress)[j].active)
    ensures forall k :: 0 <= k < 3 ==> !(Steps(progress)[k].completed && Steps(progress)[k].active)
  {
  }

  /** The step boundaries are inclusive where the label's are exclusive: at
      30 the label already says the text is being extracted while the
      upload step is still the active one, and at 75 likewise for the
      analysis and the OCR step. */
  lemma StepsLagLabel()
    ensures LabelStage(30) == Extracting && Steps(30)[0].active
    ensures LabelStage(75) == Analyzing && Steps(75)[1].active
  {
  }

  /** The index of the step a stage belongs to. */
  function StageIndex(s: Stage): nat {
    match s
    case Uploading => 0
    case Extracting => 1
    case Analyzing => 2
    case Complete => 3
  }

  /** The steps with the label's boundaries: a step is done once the bar
      reaches the start of the next stage. */
  function AlignedSteps(progress: int): (steps: seq<StepState>)
    ensures |steps| == 3
  {
    [StepState(progress >= 30, progress < 30),
     StepState(progress >= 75, progress >= 30 && progress < 75),
     StepState(progress >= 100, progress >= 75 && progress < 100)]
  }

  /** With aligned boundaries the active step is always the one the label
      names, and the steps before it are completed. */
  lemma AlignedStepsFollowLabel(progress: int)
    ensures forall k :: 0 <= k < 3 ==>
      (AlignedSteps(progress)[k].active <==> k == StageIndex(LabelStage(progress)))
    ensures forall k :: 0 <= k < 3 ==>
      (AlignedSteps(progress)[k].completed <==> k < StageIndex(LabelStage(progress)))
  {
  }
}
