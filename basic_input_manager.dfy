/** `BasicInputManager`: the line-by-line prompt that collects the
    compression parameters, each question re-asked until its answer is
    accepted, with the per-method threshold ranges and the suffix-based
    image-file test.

    Console lines are a sequence; `stoi` and `stod` are the parameters
    `parseInt` and `parseReal` (none when they throw), and the filesystem's
    answer to "does this path exist" is the parameter `pathExists`. */
module BasicInputManagement {
  import opened Wrappers
  import opened Params
  import opened Text
  import opened ErrorCalculation
  import InputManagement

  /** The image extensions this prompt recognises, after lower-casing. */
  predicate BasicImageExtension(ext: string)
  {
    ext == ".jpg" || ext == ".jpeg" || ext == ".png"
  }

  /** `isImageFile`: the path from its last '.', lower-cased, is .jpg,
      .jpeg or .png; a path without '.' is not an image. The suffix is
      taken over the whole path, not only the file name. */
  function BasicImageFile(path: string): bool
  {
    match LastIndexOf(path, '.')
    case None => false
    case Some(pos) => BasicImageExtension(ToLower(path[pos..]))
  }

  /** `isImageFile`: `find_last_of`, `substr`, then lower-casing the copy
      in place. */
  method IsImageFile(filePath: string) returns (ok: bool)
    ensures ok == BasicImageFile(filePath)
    ensures '.' !in filePath ==> !ok
  {
    var pos := LastIndexOf(filePath, '.');
    if pos.None? {
      return false;
    }
    var ext := filePath[pos.value..];
    ext := LowerCopy(ext);
    ok := ext == ".jpg" || ext == ".jpeg" || ext == ".png";
  }

  /** This prompt and the paged wizard disagree: ".bmp" is an image to the
      wizard only. */
  lemma BmpIsWizardOnly()
    ensures !BasicImageFile("photo.bmp") && InputManagement.ImageFile("photo.bmp")
  {
    var s := "photo.bmp";
    assert s[5] == '.' && s[6] != '.' && s[7] != '.' && s[8] != '.';
    assert LastIndexOf(s, '.') == Some(5);
    assert s[5..] == ".bmp";
    assert ToLower(".bmp") == ".bmp";
    assert '/' !in s;
    assert Filename(s) == s;
    assert Extension(s) == ".bmp";
  }

  /** A hidden file named ".png" is an image to this prompt only, because
      the wizard's extension ignores a leading '.' in the file name. */
  lemma HiddenPngIsBasicOnly()
    ensures BasicImageFile("dir/.png") && !InputManagement.ImageFile("dir/.png")
  {
    var s := "dir/.png";
    assert s[4] == '.' && s[5] != '.' && s[6] != '.' && s[7] != '.';
    assert LastIndexOf(s, '.') == Some(4);
    assert s[4..] == ".png";
    assert ToLower(".png") == ".png";
    HiddenFileHasNoExtension();
  }

  /** The wizard sees no extension in "dir/.png". */
  lemma HiddenFileHasNoExtension()
    ensures Extension("dir/.png") == ""
  {
    var s := "dir/.png";
    assert s[3] == '/' && s[4] != '/' && s[5] != '/' && s[6] != '/' && s[7] != '/';
    assert LastIndexOf(s, '/') == Some(3);
    assert Filename(s) == ".png";
    var name := ".png";
    assert name[0] == '.' && name[1] != '.' && name[2] != '.' && name[3] != '.';
    assert LastIndexOf(name, '.') == Some(0);
  }

  /** The threshold range and suggested value shown for a method. */
  datatype ThresholdRange = ThresholdRange(min: real, max: real, suggested: real)

  /** The table of the threshold question; a code outside the five
      methods keeps the initial zeros. */
  function RangeFor(m: ErrorMethod): (r: ThresholdRange)
    ensures IsNamedMethod(m) ==> r.min == 0.0 && 0.0 < r.suggested < r.max
    ensures !IsNamedMethod(m) ==> r == ThresholdRange(0.0, 0.0, 0.0)
  {
    if m == Variance then ThresholdRange(0.0, 16256.25, 500.0)
    else if m == MeanAbsoluteDeviation then ThresholdRange(0.0, 127.5, 15.0)
    else if m == MaxPixelDifference then ThresholdRange(0.0, 255.0, 30.0)
    else if m == Entropy then ThresholdRange(0.0, 8.0, 1.0)
    else if m == StructuralSimilarity then ThresholdRange(0.0, 1.0, 0.05)
    else ThresholdRange(0.0, 0.0, 0.0)
  }

  /** The documented ranges of variance, MAD and maximum difference hold
      every value those errors can take on a block. */
  lemma RangesHoldTheErrors(g: Grid, x: int, y: int, width: int, height: int)
    requires Covers(g, x, y, width, height) && width >= 1 && height >= 1
    ensures RangeFor(Variance).min <= BlockVariance(g, x, y, width, height) <= RangeFor(Variance).max
    ensures var mad := MeanOfChannels(ChannelMad(g, x, y, width, height, 0),
                                      ChannelMad(g, x, y, width, height, 1),
                                      ChannelMad(g, x, y, width, height, 2));
      RangeFor(MeanAbsoluteDeviation).min <= mad <= RangeFor(MeanAbsoluteDeviation).max
    ensures var diff := MeanOfChannels(ChannelSpread(g, x, y, width, height, 0) as real,
                                       ChannelSpread(g, x, y, width, height, 1) as real,
                                       ChannelSpread(g, x, y, width, height, 2) as real);
      RangeFor(MaxPixelDifference).min <= diff <= RangeFor(MaxPixelDifference).max
  {
    forall channel | 0 <= channel < 3
      ensures 0.0 <= ChannelVariance(g, x, y, width, height, channel) <= 16256.25
      ensures 0.0 <= ChannelMad(g, x, y, width, height, channel) <= 127.5
      ensures 0 <= ChannelSpread(g, x, y, width, height, channel) <= 255
    {
      ChannelVarianceBounds(g, x, y, width, height, channel);
      ChannelMadBounds(g, x, y, width, height, channel);
      ChannelSpreadBounds(g, x, y, width, height, channel);
    }
  }

  /** Question 1: a non-empty, existing image path. */
  predicate AcceptsInputPath(line: string, pathExists: string -> bool)
  {
    line != "" && pathExists(line) && BasicImageFile(line)
  }

  /** Question 2: a number from 1 to 5. */
  predicate AcceptsMethodChoice(line: string, parseInt: string -> Option<int>)
  {
    parseInt(line).Some? && 1 <= parseInt(line).value <= 5
  }

  /** Question 3: a non-empty number within the method's range. */
  predicate AcceptsThreshold(range: ThresholdRange, line: string, parseReal: string -> Option<real>)
  {
    line != "" && parseReal(line).Some? && range.min <= parseReal(line).value <= range.max
  }

  /** Question 4: a non-empty number of at least 1. */
  predicate AcceptsBlockSize(line: string, parseInt: string -> Option<int>)
  {
    line != "" && parseInt(line).Some? && parseInt(line).value >= 1
  }

  /** Question 5: a number from 0 to 1. */
  predicate AcceptsTarget(line: string, parseReal: string -> Option<real>)
  {
    parseReal(line).Some? && 0.0 <= parseReal(line).value <= 1.0
  }

  /** Question 6: a non-empty path with an extension that, lower-cased,
      is the input's lower-cased extension, in an existing directory. */
  predicate AcceptsOutputPath(line: string, inputExt: string, pathExists: string -> bool)
  {
    line != "" && Extension(line) != "" && ToLower(Extension(line)) == inputExt
    && InputManagement.ParentExists(line, pathExists)
  }

  /** Question 8: a non-empty path whose lower-cased extension is .gif, in
      an existing directory. */
  predicate AcceptsGifPath(line: string, pathExists: string -> bool)
  {
    line != "" && ToLower(Extension(line)) == ".gif" && InputManagement.ParentExists(line, pathExists)
  }

  /** The number a line parses to; 0 when it does not parse. */
  function IntOf(parseInt: string -> Option<int>, line: string): int
  {
    if parseInt(line).Some? then parseInt(line).value else 0
  }

  /** The real a line parses to; 0.0 when it does not parse. */
  function RealOf(parseReal: string -> Option<real>, line: string): real
  {
    if parseReal(line).Some? then parseReal(line).value else 0.0
  }

  /** The questions of a prompt as line tests, with the parses that turn
      accepted lines into answers. The threshold test depends on the method
      chosen, and the output-path test on the input path. The run is
      written once over these; `BasicPrompt` holds this prompt's own. */
  datatype Prompt = Prompt(inputPath: string -> bool, methodChoice: string -> bool,
                           threshold: (ErrorMethod, string) -> bool, blockSize: string -> bool,
                           target: string -> bool, outputPath: (string, string) -> bool,
                           gifAnswer: string -> Option<bool>, gifPath: string -> bool,
                           parseInt: string -> Option<int>, parseReal: string -> Option<real>)

  /** The tests of questions 1 to 8 of `getCompressionParams`. */
  function BasicPrompt(parseInt: string -> Option<int>, parseReal: string -> Option<real>,
                       pathExists: string -> bool): Prompt
  {
    Prompt((l: string) => AcceptsInputPath(l, pathExists),
           (l: string) => AcceptsMethodChoice(l, parseInt),
           (m: ErrorMethod, l: string) => AcceptsThreshold(RangeFor(m), l, parseReal),
           (l: string) => AcceptsBlockSize(l, parseInt),
           (l: string) => AcceptsTarget(l, parseReal),
           (input: string, l: string) => AcceptsOutputPath(l, ToLower(Extension(input)), pathExists),
           YesNo,
           (l: string) => AcceptsGifPath(l, pathExists),
           parseInt, parseReal)
  }

  /** The threshold question once the method is `m`. */
  function ThresholdTest(prompt: Prompt, m: ErrorMethod): string -> bool
  {
    (l: string) => prompt.threshold(m, l)
  }

  /** The output-path question once the input path is `input`. */
  function OutputTest(prompt: Prompt, input: string): string -> bool
  {
    (l: string) => prompt.outputPath(input, l)
  }

  /** A line that `answer` gives an answer for. */
  function Answers(answer: string -> Option<bool>): string -> bool
  {
    (l: string) => answer(l).Some?
  }

  /** The answers to questions 2 to 5 and the line after the last of them. */
  datatype Settings = Settings(errorMethod: ErrorMethod, threshold: real, minBlockSize: int,
                               targetCompressionPercentage: real, next: nat)

  /** What questions 2 to 5 guarantee. */
  predicate SettingsAccepted(s: Settings)
  {
    IsNamedMethod(s.errorMethod)
    && RangeFor(s.errorMethod).min <= s.threshold <= RangeFor(s.errorMethod).max
    && s.minBlockSize >= 1
    && 0.0 <= s.targetCompressionPercentage <= 1.0
  }

  /** What questions 7 and 8 guarantee: a GIF path when one was asked for,
      and the default empty path otherwise. */
  predicate GifAccepted(generateGif: bool, gifOutputPath: string, pathExists: string -> bool)
  {
    if generateGif then AcceptsGifPath(gifOutputPath, pathExists) else gifOutputPath == ""
  }

  /** Everything `getCompressionParams` guarantees of the parameters it
      returns. */
  predicate Collected(p: CompressionParams, pathExists: string -> bool)
  {
    AcceptsInputPath(p.inputImagePath, pathExists)
    && SettingsAccepted(Settings(p.errorMethod, p.threshold, p.minBlockSize, p.targetCompressionPercentage, 0))
    && AcceptsOutputPath(p.outputImagePath, ToLower(Extension(p.inputImagePath)), pathExists)
    && GifAccepted(p.generateGif, p.gifOutputPath, pathExists)
  }

  /** Questions 2 to 5 from line `from` on: each question reads from the
      line after the previous answer, and the threshold test is the one
      for the method chosen. None when the lines run out. */
  function SettingsFrom(lines: seq<string>, from: nat, prompt: Prompt): (s: Option<Settings>)
    ensures s.Some? ==> from < s.value.next <= |lines|
  {
    match FirstAccepted(lines, from, prompt.methodChoice)
    case None => None
    case Some(k1) =>
      match FirstAccepted(lines, k1 + 1, ThresholdTest(prompt, IntOf(prompt.parseInt, lines[k1])))
      case None => None
      case Some(k2) =>
        match FirstAccepted(lines, k2 + 1, prompt.blockSize)
        case None => None
        case Some(k3) =>
          match FirstAccepted(lines, k3 + 1, prompt.target)
          case None => None
          case Some(k4) => Some(SettingsAt(lines, prompt, k1, k2, k3, k4))
  }

  /** The settings answered on lines `k1` to `k4`. */
  function SettingsAt(lines: seq<string>, prompt: Prompt, k1: nat, k2: nat, k3: nat, k4: nat): Settings
    requires k1 < |lines| && k2 < |lines| && k3 < |lines| && k4 < |lines|
  {
    Settings(IntOf(prompt.parseInt, lines[k1]), RealOf(prompt.parseReal, lines[k2]),
             IntOf(prompt.parseInt, lines[k3]), RealOf(prompt.parseReal, lines[k4]), k4 + 1)
  }

  /** Lines `k1` to `k4` are, in turn, the first line after the previous
      answer that questions 2 to 5 accept. */
  predicate SettingsChain(lines: seq<string>, from: nat, prompt: Prompt, k1: nat, k2: nat, k3: nat, k4: nat)
  {
    FirstAt(lines, from, prompt.methodChoice, k1)
    && FirstAt(lines, k1 + 1, ThresholdTest(prompt, IntOf(prompt.parseInt, lines[k1])), k2)
    && FirstAt(lines, k2 + 1, prompt.blockSize, k3)
    && FirstAt(lines, k3 + 1, prompt.target, k4)
  }

  /** Answers found in turn are the settings taken. */
  lemma SettingsOfChain(lines: seq<string>, from: nat, prompt: Prompt, k1: nat, k2: nat, k3: nat, k4: nat)
    requires SettingsChain(lines, from, prompt, k1, k2, k3, k4)
    ensures SettingsFrom(lines, from, prompt) == Some(SettingsAt(lines, prompt, k1, k2, k3, k4))
  {
    FirstAcceptedAt(lines, from, prompt.methodChoice, k1);
    FirstAcceptedAt(lines, k1 + 1, ThresholdTest(prompt, IntOf(prompt.parseInt, lines[k1])), k2);
    FirstAcceptedAt(lines, k2 + 1, prompt.blockSize, k3);
    FirstAcceptedAt(lines, k3 + 1, prompt.target, k4);
  }

  /** Settings taken come from answers found in turn. */
  lemma ChainOfSettings(lines: seq<string>, from: nat, prompt: Prompt) returns (k1: nat, k2: nat, k3: nat, k4: nat)
    requires SettingsFrom(lines, from, prompt).Some?
    ensures SettingsChain(lines, from, prompt, k1, k2, k3, k4)
  {
    k1 := FirstAccepted(lines, from, prompt.methodChoice).value;
    FirstAcceptedAt(lines, from, prompt.methodChoice, k1);
    var threshold := ThresholdTest(prompt, IntOf(prompt.parseInt, lines[k1]));
    k2 := FirstAccepted(lines, k1 + 1, threshold).value;
    FirstAcceptedAt(lines, k1 + 1, threshold, k2);
    k3 := FirstAccepted(lines, k2 + 1, prompt.blockSize).value;
    FirstAcceptedAt(lines, k2 + 1, prompt.blockSize, k3);
    k4 := FirstAccepted(lines, k3 + 1, prompt.target).value;
    FirstAcceptedAt(lines, k3 + 1, prompt.target, k4);
  }

  /** Questions 2 to 5 are answered exactly when each in turn finds an
      acceptable line, and then each setting is the parse of its line. */
  lemma SettingsFromMeaning(lines: seq<string>, from: nat, prompt: Prompt)
    ensures SettingsFrom(lines, from, prompt).Some?
            <==> exists k1: nat, k2: nat, k3: nat, k4: nat :: SettingsChain(lines, from, prompt, k1, k2, k3, k4)
    ensures forall k1: nat, k2: nat, k3: nat, k4: nat | SettingsChain(lines, from, prompt, k1, k2, k3, k4) ::
              SettingsFrom(lines, from, prompt) == Some(SettingsAt(lines, prompt, k1, k2, k3, k4))
  {
    forall k1: nat, k2: nat, k3: nat, k4: nat | SettingsChain(lines, from, prompt, k1, k2, k3, k4)
      ensures SettingsFrom(lines, from, prompt) == Some(SettingsAt(lines, prompt, k1, k2, k3, k4))
    {
      SettingsOfChain(lines, from, prompt, k1, k2, k3, k4);
    }
    if SettingsFrom(lines, from, prompt).Some? {
      var k1, k2, k3, k4 := ChainOfSettings(lines, from, prompt);
    }
  }

  /** With this prompt's tests, the settings taken are a named method, a
      threshold in that method's range, a block size of at least 1 and a
      target in [0, 1]. */
  lemma BasicSettingsAccepted(lines: seq<string>, from: nat, parseInt: string -> Option<int>,
                              parseReal: string -> Option<real>, pathExists: string -> bool)
    ensures var s := SettingsFrom(lines, from, BasicPrompt(parseInt, parseReal, pathExists));
      s.Some? ==> SettingsAccepted(s.value)
  {
    var prompt := BasicPrompt(parseInt, parseReal, pathExists);
    var s := SettingsFrom(lines, from, prompt);
    if s.Some? {
      var k1 := FirstAccepted(lines, from, prompt.methodChoice).value;
      assert AcceptsMethodChoice(lines[k1], parseInt);
      var range := RangeFor(IntOf(parseInt, lines[k1]));
      var k2 := FirstAccepted(lines, k1 + 1, ThresholdTest(prompt, IntOf(parseInt, lines[k1]))).value;
      assert AcceptsThreshold(range, lines[k2], parseReal);
    }
  }

  /** Questions 7 and 8 from line `from` on: no GIF and the default empty
      path for a no; for a yes, the first acceptable GIF path after it. */
  function GifFrom(lines: seq<string>, from: nat, prompt: Prompt): (r: Option<(bool, string)>)
    ensures r.Some? && r.value.0 ==> prompt.gifPath(r.value.1)
    ensures r.Some? && !r.value.0 ==> r.value.1 == ""
  {
    match FirstAccepted(lines, from, Answers(prompt.gifAnswer))
    case None => None
    case Some(k) =>
      if prompt.gifAnswer(lines[k]) == Some(false) then Some((false, ""))
      else match FirstAccepted(lines, k + 1, prompt.gifPath)
        case None => None
        case Some(k2) => Some((true, lines[k2]))
  }

  /** The first answer after `from` is on line `k` and is no. */
  predicate DeclinesGif(lines: seq<string>, from: nat, prompt: Prompt, k: nat)
  {
    FirstAt(lines, from, Answers(prompt.gifAnswer), k) && prompt.gifAnswer(lines[k]) == Some(false)
  }

  /** The first answer after `from` is on line `k` and is yes, and line
      `k2` is the first acceptable GIF path after it. */
  predicate AsksGifPath(lines: seq<string>, from: nat, prompt: Prompt, k: nat, k2: nat)
  {
    FirstAt(lines, from, Answers(prompt.gifAnswer), k) && prompt.gifAnswer(lines[k]) == Some(true)
    && FirstAt(lines, k + 1, prompt.gifPath, k2)
  }

  /** The GIF questions give no GIF exactly when the first answer is no,
      and a GIF at `path` exactly when the first answer is yes and `path`
      is the first acceptable GIF path after it. */
  lemma GifFromMeaning(lines: seq<string>, from: nat, prompt: Prompt, path: string)
    ensures GifFrom(lines, from, prompt) == Some((false, "")) <==> exists k: nat :: DeclinesGif(lines, from, prompt, k)
    ensures GifFrom(lines, from, prompt) == Some((true, path))
            <==> exists k: nat, k2: nat :: AsksGifPath(lines, from, prompt, k, k2) && lines[k2] == path
  {
    forall k: nat | DeclinesGif(lines, from, prompt, k)
      ensures GifFrom(lines, from, prompt) == Some((false, ""))
    {
      FirstAcceptedAt(lines, from, Answers(prompt.gifAnswer), k);
    }
    forall k: nat, k2: nat | AsksGifPath(lines, from, prompt, k, k2)
      ensures GifFrom(lines, from, prompt) == Some((true, lines[k2]))
    {
      FirstAcceptedAt(lines, from, Answers(prompt.gifAnswer), k);
      FirstAcceptedAt(lines, k + 1, prompt.gifPath, k2);
    }
    var first := FirstAccepted(lines, from, Answers(prompt.gifAnswer));
    if first.Some? {
      var k := first.value;
      FirstAcceptedAt(lines, from, Answers(prompt.gifAnswer), k);
      if prompt.gifAnswer(lines[k]) == Some(false) {
        assert DeclinesGif(lines, from, prompt, k);
      } else {
        var answer := prompt.gifAnswer(lines[k]);
        assert answer.Some? by {
          assert Answers(prompt.gifAnswer)(lines[k]);
        }
        assert answer.value;
        assert answer == Some(true);
        var found := FirstAccepted(lines, k + 1, prompt.gifPath);
        if found.Some? {
          FirstAcceptedAt(lines, k + 1, prompt.gifPath, found.value);
          assert AsksGifPath(lines, from, prompt, k, found.value);
        }
      }
    }
  }

  /** With this prompt's tests, a GIF path is taken only after a yes and
      is then acceptable; a no leaves the empty path. */
  lemma BasicGifAccepted(lines: seq<string>, from: nat, parseInt: string -> Option<int>,
                         parseReal: string -> Option<real>, pathExists: string -> bool)
    ensures var r := GifFrom(lines, from, BasicPrompt(parseInt, parseReal, pathExists));
      r.Some? ==> GifAccepted(r.value.0, r.value.1, pathExists)
  {
    var prompt := BasicPrompt(parseInt, parseReal, pathExists);
    var r := GifFrom(lines, from, prompt);
    if r.Some? && r.value.0 {
      assert prompt.gifPath(r.value.1);
    }
  }

  /** The parameters of a finished run: every field is an answer. */
  function ParamsOf(inputImagePath: string, s: Settings, outputImagePath: string,
                    gif: (bool, string)): CompressionParams
  {
    CompressionParams(inputImagePath, s.errorMethod, s.threshold, s.minBlockSize,
                      s.targetCompressionPercentage, outputImagePath, gif.1, gif.0)
  }

  /** Questions 6 to 8 from line `from` on, once the input path is
      `input`: the first acceptable output path, then the GIF questions
      after it. */
  function OutputsFrom(lines: seq<string>, from: nat, prompt: Prompt, input: string)
    : (r: Option<(string, (bool, string))>)
    ensures r.Some? ==> prompt.outputPath(input, r.value.0)
  {
    match FirstAccepted(lines, from, OutputTest(prompt, input))
    case None => None
    case Some(k5) =>
      match GifFrom(lines, k5 + 1, prompt)
      case None => None
      case Some(gif) => Some((lines[k5], gif))
  }

  /** The whole run: the input path, questions 2 to 5 after it, then an
      output path that the input path's test accepts and the GIF questions.
      None when the lines run out first. */
  function Collect(lines: seq<string>, prompt: Prompt): (result: Option<CompressionParams>)
    ensures result.Some? ==> prompt.inputPath(result.value.inputImagePath)
    ensures result.Some? ==> prompt.outputPath(result.value.inputImagePath, result.value.outputImagePath)
  {
    match FirstAccepted(lines, 0, prompt.inputPath)
    case None => None
    case Some(k0) =>
      match SettingsFrom(lines, k0 + 1, prompt)
      case None => None
      case Some(s) =>
        match OutputsFrom(lines, s.next, prompt, lines[k0])
        case None => None
        case Some(outputs) => Some(ParamsOf(lines[k0], s, outputs.0, outputs.1))
  }

  /** Line `k0` is the first acceptable input path, `s` the answers to
      questions 2 to 5 after it, line `k5` the first acceptable output path
      after those, and `gif` the answers to the GIF questions after it. */
  predicate RunChain(lines: seq<string>, prompt: Prompt, k0: nat, s: Settings, k5: nat, gif: (bool, string))
  {
    FirstAt(lines, 0, prompt.inputPath, k0)
    && SettingsFrom(lines, k0 + 1, prompt) == Some(s)
    && FirstAt(lines, s.next, OutputTest(prompt, lines[k0]), k5)
    && GifFrom(lines, k5 + 1, prompt) == Some(gif)
  }

  /** Answers found in turn are the parameters returned. */
  lemma CollectOfChain(lines: seq<string>, prompt: Prompt, k0: nat, s: Settings, k5: nat, gif: (bool, string))
    requires RunChain(lines, prompt, k0, s, k5, gif)
    ensures Collect(lines, prompt) == Some(ParamsOf(lines[k0], s, lines[k5], gif))
  {
    FirstAcceptedAt(lines, 0, prompt.inputPath, k0);
    FirstAcceptedAt(lines, s.next, OutputTest(prompt, lines[k0]), k5);
    assert OutputsFrom(lines, s.next, prompt, lines[k0]) == Some((lines[k5], gif));
  }

  /** Parameters returned come from answers found in turn. */
  lemma ChainOfCollect(lines: seq<string>, prompt: Prompt) returns (k0: nat, s: Settings, k5: nat, gif: (bool, string))
    requires Collect(lines, prompt).Some?
    ensures RunChain(lines, prompt, k0, s, k5, gif)
  {
    k0 := FirstAccepted(lines, 0, prompt.inputPath).value;
    FirstAcceptedAt(lines, 0, prompt.inputPath, k0);
    s := SettingsFrom(lines, k0 + 1, prompt).value;
    k5 := FirstAccepted(lines, s.next, OutputTest(prompt, lines[k0])).value;
    FirstAcceptedAt(lines, s.next, OutputTest(prompt, lines[k0]), k5);
    gif := GifFrom(lines, k5 + 1, prompt).value;
  }

  /** A run finishes exactly when every question in turn finds its answer,
      and then returns those answers. */
  lemma CollectMeaning(lines: seq<string>, prompt: Prompt)
    ensures Collect(lines, prompt).Some?
            <==> exists k0: nat, s, k5: nat, gif :: RunChain(lines, prompt, k0, s, k5, gif)
    ensures forall k0: nat, s, k5: nat, gif | RunChain(lines, prompt, k0, s, k5, gif) ::
              Collect(lines, prompt) == Some(ParamsOf(lines[k0], s, lines[k5], gif))
  {
    forall k0: nat, s, k5: nat, gif | RunChain(lines, prompt, k0, s, k5, gif)
      ensures Collect(lines, prompt) == Some(ParamsOf(lines[k0], s, lines[k5], gif))
    {
      CollectOfChain(lines, prompt, k0, s, k5, gif);
    }
    if Collect(lines, prompt).Some? {
      var k0, s, k5, gif := ChainOfCollect(lines, prompt);
    }
  }

  /** The paths a finished run returns are lines that were read. */
  lemma CollectPathsRead(lines: seq<string>, prompt: Prompt)
    ensures var result := Collect(lines, prompt);
      result.Some? ==> (result.value.inputImagePath in lines && result.value.outputImagePath in lines
                        && (result.value.generateGif ==> result.value.gifOutputPath in lines))
  {
    if Collect(lines, prompt).Some? {
      var k0, s, k5, gif := ChainOfCollect(lines, prompt);
      CollectOfChain(lines, prompt, k0, s, k5, gif);
      assert lines[k0] in lines && lines[k5] in lines;
      if gif.0 {
        var k := FirstAccepted(lines, k5 + 1, Answers(prompt.gifAnswer)).value;
        var k2 := FirstAccepted(lines, k + 1, prompt.gifPath).value;
        assert gif.1 == lines[k2];
      }
    }
  }

  /** With this prompt's tests, a finished run passed every question. */
  lemma BasicCollected(lines: seq<string>, parseInt: string -> Option<int>,
                       parseReal: string -> Option<real>, pathExists: string -> bool)
    ensures var result := Collect(lines, BasicPrompt(parseInt, parseReal, pathExists));
      result.Some? ==> Collected(result.value, pathExists)
  {
    var prompt := BasicPrompt(parseInt, parseReal, pathExists);
    var result := Collect(lines, prompt);
    if result.Some? {
      var k0, s, k5, gif := ChainOfCollect(lines, prompt);
      CollectOfChain(lines, prompt, k0, s, k5, gif);
      BasicSettingsAccepted(lines, k0 + 1, parseInt, parseReal, pathExists);
      BasicGifAccepted(lines, k5 + 1, parseInt, parseReal, pathExists);
    }
  }

  /** No output path is accepted after the input "dir/.png": its lower-cased
      extension is the empty string, which no accepted output extension
      is. */
  lemma HiddenPngOutputNeverAccepted(line: string, pathExists: string -> bool)
    ensures !AcceptsOutputPath(line, ToLower(Extension("dir/.png")), pathExists)
  {
    HiddenFileHasNoExtension();
    assert |ToLower(Extension(line))| == |Extension(line)|;
  }

  /** A run whose output-path question accepts no line after the input
      path taken never finishes. */
  lemma NoOutputNoRun(lines: seq<string>, prompt: Prompt, k0: nat)
    requires FirstAccepted(lines, 0, prompt.inputPath) == Some(k0)
    requires forall l :: !prompt.outputPath(lines[k0], l)
    ensures Collect(lines, prompt) == None
  {
    var s := SettingsFrom(lines, k0 + 1, prompt);
    if s.Some? {
      var found := FirstAccepted(lines, s.value.next, OutputTest(prompt, lines[k0]));
      if found.Some? {
        assert false;
      }
    }
  }

  /** The input "dir/.png" is accepted by question 1, and then no line ever
      finishes the run. */
  lemma HiddenPngInputNeverFinishes(lines: seq<string>, parseInt: string -> Option<int>,
                                    parseReal: string -> Option<real>, pathExists: string -> bool)
    requires |lines| > 0 && lines[0] == "dir/.png" && pathExists("dir/.png")
    ensures Collect(lines, BasicPrompt(parseInt, parseReal, pathExists)) == None
  {
    var prompt := BasicPrompt(parseInt, parseReal, pathExists);
    HiddenPngIsBasicOnly();
    assert prompt.inputPath(lines[0]);
    forall l
      ensures !prompt.outputPath(lines[0], l)
    {
      HiddenPngOutputNeverAccepted(l, pathExists);
    }
    NoOutputNoRun(lines, prompt, 0);
  }

  /** Questions 2 to 5, from line `from` on: the method, a threshold the
      method's test accepts, the block size and the target. */
  method AskSettings(lines: seq<string>, from: nat, prompt: Prompt) returns (s: Option<Settings>)
    ensures s == SettingsFrom(lines, from, prompt)
  {
    var k := ReadUntilAccepted(lines, from, prompt.methodChoice);
    if k.None? {
      return None;
    }
    var k1 := k.value;
    var errorMethod := IntOf(prompt.parseInt, lines[k1]);

    k := ReadUntilAccepted(lines, k1 + 1, ThresholdTest(prompt, errorMethod));
    if k.None? {
      return None;
    }
    var k2 := k.value;
    var threshold := RealOf(prompt.parseReal, lines[k2]);

    k := ReadUntilAccepted(lines, k2 + 1, prompt.blockSize);
    if k.None? {
      return None;
    }
    var k3 := k.value;
    var minBlockSize := IntOf(prompt.parseInt, lines[k3]);

    k := ReadUntilAccepted(lines, k3 + 1, prompt.target);
    if k.None? {
      return None;
    }
    var target := RealOf(prompt.parseReal, lines[k.value]);
    return Some(Settings(errorMethod, threshold, minBlockSize, target, k.value + 1));
  }

  /** Questions 7 and 8, from line `from` on: whether to make a GIF and,
      only when the answer is yes, its path. */
  method AskGif(lines: seq<string>, from: nat, prompt: Prompt) returns (r: Option<(bool, string)>)
    ensures r == GifFrom(lines, from, prompt)
  {
    var k := ReadUntilAccepted(lines, from, Answers(prompt.gifAnswer));
    if k.None? {
      return None;
    }
    var generateGif := prompt.gifAnswer(lines[k.value]).value;
    if !generateGif {
      return Some((false, ""));
    }
    k := ReadUntilAccepted(lines, k.value + 1, prompt.gifPath);
    if k.None? {
      return None;
    }
    return Some((true, lines[k.value]));
  }

  /** Questions 6 to 8, from line `from` on: the output path for input
      `input`, then the GIF questions. */
  method AskOutputs(lines: seq<string>, from: nat, prompt: Prompt, input: string)
    returns (r: Option<(string, (bool, string))>)
    ensures r == OutputsFrom(lines, from, prompt, input)
  {
    var k := ReadUntilAccepted(lines, from, OutputTest(prompt, input));
    if k.None? {
      return None;
    }
    var gif := AskGif(lines, k.value + 1, prompt);
    if gif.None? {
      return None;
    }
    return Some((lines[k.value], gif.value));
  }

  /** The questions in order, each reading lines until one is accepted,
      starting after the line that answered the previous question; nothing
      when the lines run out before the last question is answered. */
  method Ask(lines: seq<string>, prompt: Prompt) returns (result: Option<CompressionParams>)
    ensures result == Collect(lines, prompt)
  {
    var k := ReadUntilAccepted(lines, 0, prompt.inputPath);
    if k.None? {
      return None;
    }
    var inputImagePath := lines[k.value];

    var settings := AskSettings(lines, k.value + 1, prompt);
    if settings.None? {
      return None;
    }

    var outputs := AskOutputs(lines, settings.value.next, prompt, inputImagePath);
    if outputs.None? {
      return None;
    }
    return Some(ParamsOf(inputImagePath, settings.value, outputs.value.0, outputs.value.1));
  }

  /** `getCompressionParams`: the run over this prompt's tests. The closing
      "press Enter" line is not needed. */
  method GetCompressionParams(lines: seq<string>, parseInt: string -> Option<int>,
                              parseReal: string -> Option<real>, pathExists: string -> bool)
    returns (result: Option<CompressionParams>)
    ensures result == Collect(lines, BasicPrompt(parseInt, parseReal, pathExists))
    ensures result.Some? ==> Collected(result.value, pathExists)
    ensures result.Some? ==> result.value.inputImagePath in lines && result.value.outputImagePath in lines
  {
    result := Ask(lines, BasicPrompt(parseInt, parseReal, pathExists));
    BasicCollected(lines, parseInt, parseReal, pathExists);
    CollectPathsRead(lines, BasicPrompt(parseInt, parseReal, pathExists));
  }
}
