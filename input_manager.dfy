/** The page wizard of `InputManager`: eight pages visited in order, each
    handler answering whether to go on or back, with the values each page
    accepts, the threshold bound per error method, the image-file test and
    the `validate*` checks.

    Reading lines from the console, parsing numbers (`stoi`, `stod`) and
    asking the filesystem whether a path exists are outside the model: the
    parsed value and the answer of the filesystem are parameters. */
module InputManagement {
  import opened Wrappers
  import opened Params
  import opened Text

  /** The pages, in `InputPage` order. */
  const InputImagePath := 0
  const ErrorMethodPage := 1
  const ThresholdPage := 2
  const MinBlockSizePage := 3
  const TargetCompressionPage := 4
  const OutputImagePath := 5
  const GifOutputPath := 6
  const Confirmation := 7

  type Page = p: int | 0 <= p <= 7

  /** The navigation step after a page other than a confirmed
      confirmation: forward on `goNext`, otherwise back, except that the
      first page stays where it is. */
  function Navigate(page: Page, goNext: bool): (next: Page)
    requires page < Confirmation || !goNext
    ensures goNext ==> next == page + 1
    ensures !goNext ==> next == if page == InputImagePath then page else page - 1
  {
    if goNext then page + 1
    else if page == InputImagePath then page
    else page - 1
  }

  /** What one visit to a page produced: the handler's answer and the
      parameters after the handler ran (a handler may change them and
      still go back). */
  datatype PageOutcome = PageOutcome(goNext: bool, params: CompressionParams)

  /** The loop of `getCompressionParams` from `page` over the given
      handler outcomes: it returns the parameters when the confirmation
      page answers to go on, and nothing if the outcomes run out first. */
  function Run(page: Page, outcomes: seq<PageOutcome>): Option<CompressionParams>
    decreases |outcomes|
  {
    if |outcomes| == 0 then None
    else if page == Confirmation && outcomes[0].goNext then Some(outcomes[0].params)
    else Run(Navigate(page, outcomes[0].goNext), outcomes[1..])
  }

  /** Only the confirmation page returns, and it can be reached from
      `page` only by going forward once per page in between: a finished
      run consumed at least one outcome per page from `page` on. */
  lemma {:induction false} FinishingVisitsEveryPage(page: Page, outcomes: seq<PageOutcome>)
    requires Run(page, outcomes).Some?
    ensures |outcomes| >= 8 - page
    decreases |outcomes|
  {
    if !(page == Confirmation && outcomes[0].goNext) {
      FinishingVisitsEveryPage(Navigate(page, outcomes[0].goNext), outcomes[1..]);
    }
  }

  /** Answering "next" on every page from `page` returns the parameters of
      the confirmation visit. */
  lemma {:induction false} StraightThrough(page: Page, outcomes: seq<PageOutcome>)
    requires |outcomes| >= 8 - page
    requires forall k :: 0 <= k < 8 - page ==> outcomes[k].goNext
    ensures Run(page, outcomes) == Some(outcomes[7 - page].params)
    decreases 8 - page
  {
    if page < Confirmation {
      StraightThrough(page + 1, outcomes[1..]);
    }
  }

  /** `InputManager`: the parameters being collected and the current page. */
  class InputManager {
    var params: CompressionParams
    var currentPage: Page

    /** Default parameters, on the first page. */
    constructor()
      ensures params == Default() && currentPage == InputImagePath
    {
      params := Default();
      currentPage := InputImagePath;
    }

    /** `getCompressionParams`: each iteration runs the handler of the
        current page (its outcome is the next element of `outcomes`), returns
        on a confirmed confirmation page, and otherwise moves one page
        forward or back. When the outcomes run out the model stops with
        nothing. */
    method GetCompressionParams(outcomes: seq<PageOutcome>) returns (result: Option<CompressionParams>)
      modifies this
      ensures result == Run(old(currentPage), outcomes)
      ensures result.Some? ==> currentPage == Confirmation && params == result.value
    {
      var k := 0;
      while k < |outcomes|
        invariant 0 <= k <= |outcomes|
        invariant Run(currentPage, outcomes[k..]) == Run(old(currentPage), outcomes)
      {
        var goNext := outcomes[k].goNext;
        params := outcomes[k].params;
        assert outcomes[k..][1..] == outcomes[k + 1..];
        k := k + 1;
        if currentPage == Confirmation && goNext {
          return Some(params);
        }
        currentPage := Navigate(currentPage, goNext);
      }
      return None;
    }

    /** `handleGifOutputPathPage`: the y/n read loop, then, after a yes,
        the path read loop from the next line. A yes switches the GIF on
        before the path is asked, so going back from the path keeps it on;
        nothing but the two GIF fields changes. */
    method HandleGifOutputPathPage(lines: seq<string>, pathExists: string -> bool)
      returns (reply: Option<GifReply>)
      modifies this
      ensures reply == GifPageReply(lines, pathExists)
      ensures reply.Some? ==> params == GifOutcome(old(params), reply.value).params
      ensures reply.None? ==> params == old(params) || params == old(params).(generateGif := true)
      ensures currentPage == old(currentPage)
    {
      var k := ReadPageLine(lines, 0, AcceptsGifAnswer);
      if k.None? {
        return None;
      }
      var lower := LowerCopy(lines[k.value]);
      if lower == "b" {
        return Some(BackAtQuestion);
      }
      if YesNo(lines[k.value]) == Some(false) {
        params := params.(generateGif := false);
        return Some(NoGif);
      }
      params := params.(generateGif := true);

      k := ReadPageLine(lines, k.value + 1, GifPathTest(pathExists));
      if k.None? {
        return None;
      }
      lower := LowerCopy(lines[k.value]);
      if lower == "b" {
        return Some(BackAtPath);
      }
      params := params.(gifOutputPath := lines[k.value]);
      return Some(GifTo(lines[k.value]));
    }
  }

  /** How a page handler's read loop ends: "b" in any case goes back, and
      otherwise the first line the page accepts is taken. */
  datatype Reply = GoBack | Accepted(line: string)

  /** The lines that end a handler's read loop: "b", or a line other than
      "clear" that the page accepts. */
  function Decisive(accepts: string -> bool): string -> bool
  {
    (line: string) => ToLower(line) == "b" || (ToLower(line) != "clear" && accepts(line))
  }

  /** The reply of a handler reading `lines`, or nothing if the lines run
      out. */
  function PageReply(lines: seq<string>, accepts: string -> bool): Option<Reply>
  {
    match FirstAccepted(lines, 0, Decisive(accepts))
    case None => None
    case Some(k) => if ToLower(lines[k]) == "b" then Some(GoBack) else Some(Accepted(lines[k]))
  }

  /** A taken line is accepted and is neither "b" nor "clear"; going back
      answers a "b"; and every line read before the decisive one was
      "clear" or refused. */
  lemma PageReplyMeaning(lines: seq<string>, accepts: string -> bool)
    ensures match PageReply(lines, accepts)
      case None => forall m :: 0 <= m < |lines| ==> !Decisive(accepts)(lines[m])
      case Some(Accepted(line)) => accepts(line) && ToLower(line) != "b" && ToLower(line) != "clear"
      case Some(GoBack) => exists k :: 0 <= k < |lines| && ToLower(lines[k]) == "b"
                             && forall m :: 0 <= m < k ==> !Decisive(accepts)(lines[m])
  {
    FirstAcceptedIsFirst(lines, 0, Decisive(accepts));
  }

  /** The read loop shared by the page handlers, from line `from`: each
      line is lower-cased into a copy, "b" ends the loop, "clear" redraws
      and reads again, and any other line ends it when the page accepts
      it. The index of the line that ended it, or none. */
  method ReadPageLine(lines: seq<string>, from: nat, accepts: string -> bool) returns (k: Option<nat>)
    ensures k == FirstAccepted(lines, from, Decisive(accepts))
  {
    var i := from;
    while i < |lines|
      invariant from <= i
      invariant FirstAccepted(lines, i, Decisive(accepts)) == FirstAccepted(lines, from, Decisive(accepts))
    {
      var lower := LowerCopy(lines[i]);
      if lower == "b" || (lower != "clear" && accepts(lines[i])) {
        return Some(i);
      }
      i := i + 1;
    }
    return None;
  }

  /** A page handler with one read loop: "b" goes back and the first line
      the page accepts is taken. */
  method HandlePage(lines: seq<string>, accepts: string -> bool) returns (reply: Option<Reply>)
    ensures reply == PageReply(lines, accepts)
  {
    var k := ReadPageLine(lines, 0, accepts);
    if k.None? {
      return None;
    }
    var lower := LowerCopy(lines[k.value]);
    if lower == "b" {
      return Some(GoBack);
    }
    return Some(Accepted(lines[k.value]));
  }

  /** The y/n step of the GIF page takes y, yes, n or no, in any case. */
  predicate AcceptsGifAnswer(line: string)
  {
    YesNo(line).Some?
  }

  /** The GIF page's path step as a line test. */
  function GifPathTest(pathExists: string -> bool): string -> bool
  {
    (line: string) => AcceptsGifOutputPath(line, pathExists)
  }

  /** How the GIF page ends: "b" at the y/n question, "b" at the path
      after a yes, a no, or a yes followed by an accepted path. */
  datatype GifReply = BackAtQuestion | BackAtPath | NoGif | GifTo(path: string)

  /** The GIF page's reply: the y/n read loop, then, after a yes, the path
      read loop from the next line; nothing if the lines run out. */
  function GifPageReply(lines: seq<string>, pathExists: string -> bool): (reply: Option<GifReply>)
    ensures reply.Some? && reply.value.GifTo? ==> AcceptsGifOutputPath(reply.value.path, pathExists)
  {
    match FirstAccepted(lines, 0, Decisive(AcceptsGifAnswer))
    case None => None
    case Some(k) =>
      if ToLower(lines[k]) == "b" then Some(BackAtQuestion)
      else if YesNo(lines[k]) == Some(false) then Some(NoGif)
      else
        match FirstAccepted(lines, k + 1, Decisive(GifPathTest(pathExists)))
        case None => None
        case Some(k2) => if ToLower(lines[k2]) == "b" then Some(BackAtPath) else Some(GifTo(lines[k2]))
  }

  /** The GIF page goes back from the question exactly when a "b" comes
      before any y/n answer. */
  lemma GifPageBackMeaning(lines: seq<string>, pathExists: string -> bool)
    ensures GifPageReply(lines, pathExists) == Some(BackAtQuestion)
            <==> exists k: nat :: FirstAt(lines, 0, Decisive(AcceptsGifAnswer), k) && ToLower(lines[k]) == "b"
  {
    var question := Decisive(AcceptsGifAnswer);
    forall k: nat | FirstAt(lines, 0, question, k)
      ensures FirstAccepted(lines, 0, question) == Some(k)
    {
      FirstAcceptedAt(lines, 0, question, k);
    }
    var first := FirstAccepted(lines, 0, question);
    if first.Some? {
      FirstAcceptedAt(lines, 0, question, first.value);
    }
  }

  /** The GIF page gives no GIF exactly when the first y/n answer is a no. */
  lemma GifPageNoMeaning(lines: seq<string>, pathExists: string -> bool)
    ensures GifPageReply(lines, pathExists) == Some(NoGif)
            <==> exists k: nat :: FirstAt(lines, 0, Decisive(AcceptsGifAnswer), k) && YesNo(lines[k]) == Some(false)
  {
    var question := Decisive(AcceptsGifAnswer);
    forall k: nat | FirstAt(lines, 0, question, k)
      ensures FirstAccepted(lines, 0, question) == Some(k)
    {
      FirstAcceptedAt(lines, 0, question, k);
    }
    var first := FirstAccepted(lines, 0, question);
    if first.Some? {
      FirstAcceptedAt(lines, 0, question, first.value);
    }
  }

  /** Line `k` is the first y/n answer and is a yes, and line `k2` is the
      first line after it that is "b" or an accepted GIF path, and is not
      "b". */
  predicate TakesGifPath(lines: seq<string>, pathExists: string -> bool, k: nat, k2: nat)
  {
    FirstAt(lines, 0, Decisive(AcceptsGifAnswer), k) && YesNo(lines[k]) == Some(true)
    && FirstAt(lines, k + 1, Decisive(GifPathTest(pathExists)), k2) && ToLower(lines[k2]) != "b"
  }

  /** A yes and then a path found in turn are the path taken. */
  lemma GifPathOfChain(lines: seq<string>, pathExists: string -> bool, k: nat, k2: nat)
    requires TakesGifPath(lines, pathExists, k, k2)
    ensures GifPageReply(lines, pathExists) == Some(GifTo(lines[k2]))
  {
    FirstAcceptedAt(lines, 0, Decisive(AcceptsGifAnswer), k);
    FirstAcceptedAt(lines, k + 1, Decisive(GifPathTest(pathExists)), k2);
  }

  /** A path taken comes from a yes and then a path found in turn. */
  lemma ChainOfGifPath(lines: seq<string>, pathExists: string -> bool) returns (k: nat, k2: nat)
    requires GifPageReply(lines, pathExists).Some? && GifPageReply(lines, pathExists).value.GifTo?
    ensures TakesGifPath(lines, pathExists, k, k2) && lines[k2] == GifPageReply(lines, pathExists).value.path
  {
    k := FirstAccepted(lines, 0, Decisive(AcceptsGifAnswer)).value;
    FirstAcceptedAt(lines, 0, Decisive(AcceptsGifAnswer), k);
    assert ToLower(lines[k]) != "b" && YesNo(lines[k]) != Some(false);
    assert AcceptsGifAnswer(lines[k]);
    var answer := YesNo(lines[k]);
    assert answer.value;
    k2 := FirstAccepted(lines, k + 1, Decisive(GifPathTest(pathExists))).value;
    FirstAcceptedAt(lines, k + 1, Decisive(GifPathTest(pathExists)), k2);
  }

  /** The GIF page takes `path` exactly when the first y/n answer is a yes
      and `path` is the first line after it that is "b" or an accepted
      path, and is not "b". */
  lemma GifPagePathMeaning(lines: seq<string>, pathExists: string -> bool, path: string)
    ensures GifPageReply(lines, pathExists) == Some(GifTo(path))
            <==> exists k: nat, k2: nat :: TakesGifPath(lines, pathExists, k, k2) && lines[k2] == path
  {
    forall k: nat, k2: nat | TakesGifPath(lines, pathExists, k, k2)
      ensures GifPageReply(lines, pathExists) == Some(GifTo(lines[k2]))
    {
      GifPathOfChain(lines, pathExists, k, k2);
    }
    if GifPageReply(lines, pathExists) == Some(GifTo(path)) {
      var k, k2 := ChainOfGifPath(lines, pathExists);
    }
  }

  /** The page outcome of a GIF page reply, from the parameters before it:
      "b" at the question changes nothing, "b" at the path leaves the GIF
      switched on, a no switches it off, and a path is stored with the GIF
      on. */
  function GifOutcome(params: CompressionParams, reply: GifReply): (outcome: PageOutcome)
    ensures outcome.goNext <==> reply.NoGif? || reply.GifTo?
    ensures outcome.params.(generateGif := params.generateGif, gifOutputPath := params.gifOutputPath) == params
    ensures outcome.params.generateGif == (reply.BackAtPath? || reply.GifTo? || (reply.BackAtQuestion? && params.generateGif))
    ensures outcome.params.gifOutputPath == if reply.GifTo? then reply.path else params.gifOutputPath
  {
    match reply
    case BackAtQuestion => PageOutcome(false, params)
    case BackAtPath => PageOutcome(false, params.(generateGif := true))
    case NoGif => PageOutcome(true, params.(generateGif := false))
    case GifTo(path) => PageOutcome(true, params.(generateGif := true, gifOutputPath := path))
  }

  /** The confirmation page takes every line: only "b" and "clear" are
      read as anything else. */
  predicate AcceptsConfirmation(line: string)
  {
    true
  }

  /** On the confirmation page the first line that is not "clear" decides:
      "b" goes back and any other line confirms; the page waits only while
      the lines are all "clear". */
  lemma ConfirmationMeaning(lines: seq<string>, k: nat)
    ensures PageReply(lines, AcceptsConfirmation).None? <==> forall m :: 0 <= m < |lines| ==> ToLower(lines[m]) == "clear"
    ensures k < |lines| && ToLower(lines[k]) != "clear" && (forall m :: 0 <= m < k ==> ToLower(lines[m]) == "clear") ==>
              PageReply(lines, AcceptsConfirmation) == if ToLower(lines[k]) == "b" then Some(GoBack) else Some(Accepted(lines[k]))
  {
    var decides := Decisive(AcceptsConfirmation);
    forall m | 0 <= m < |lines|
      ensures decides(lines[m]) <==> ToLower(lines[m]) != "clear"
    {
      assert AcceptsConfirmation(lines[m]);
    }
    FirstAcceptedIsFirst(lines, 0, decides);
    if k < |lines| && ToLower(lines[k]) != "clear" && (forall m :: 0 <= m < k ==> ToLower(lines[m]) == "clear") {
      FirstAcceptedAt(lines, 0, decides, k);
    }
  }

  /** Pressing Enter, an empty line, confirms. */
  lemma EmptyLineConfirms(lines: seq<string>)
    requires |lines| > 0 && lines[0] == ""
    ensures PageReply(lines, AcceptsConfirmation) == Some(Accepted(""))
  {
    assert AcceptsConfirmation(lines[0]);
    assert Decisive(AcceptsConfirmation)(lines[0]);
  }

  /** The upper end of the threshold page's range: 8 for entropy, 1 for
      SSIM and 255 for every other method. */
  function ThresholdMax(m: ErrorMethod): (max: real)
    ensures m == Entropy ==> max == 8.0
    ensures m == StructuralSimilarity ==> max == 1.0
    ensures m != Entropy && m != StructuralSimilarity ==> max == 255.0
  {
    if m == Entropy then 8.0 else if m == StructuralSimilarity then 1.0 else 255.0
  }

  /** The error-method page takes 1 to 5. */
  predicate AcceptsErrorMethod(m: int)
  {
    1 <= m <= 5
  }

  /** The threshold page takes a value from 0 to `ThresholdMax`. */
  predicate AcceptsThreshold(m: ErrorMethod, t: real)
  {
    0.0 <= t <= ThresholdMax(m)
  }

  /** The block-size page takes 1 to 64. */
  predicate AcceptsMinBlockSize(size: int)
  {
    1 <= size <= 64
  }

  /** The target page takes a value from 0 to 1. */
  predicate AcceptsTargetCompression(p: real)
  {
    0.0 <= p <= 1.0
  }

  /** The extensions `isImageFile` recognises, after lower-casing. */
  predicate ImageExtension(ext: string)
  {
    ext == ".jpg" || ext == ".jpeg" || ext == ".png" || ext == ".bmp"
  }

  /** `isImageFile`: the lower-cased extension of the path is an image
      extension. */
  function ImageFile(path: string): bool
  {
    ImageExtension(ToLower(Extension(path)))
  }

  /** `isImageFile` lower-cases its copy of the extension in place before
      comparing. */
  method IsImageFile(path: string) returns (ok: bool)
    ensures ok == ImageFile(path)
    ensures ok ==> '.' in path
  {
    var ext := Extension(path);
    ext := LowerCopy(ext);
    ok := ext == ".jpg" || ext == ".jpeg" || ext == ".png" || ext == ".bmp";
    if ok && '.' !in path {
      NoDotNoExtension(path);
    }
  }

  /** The input page takes an existing file with an image extension. */
  predicate AcceptsInputImagePath(path: string, pathExists: string -> bool)
  {
    pathExists(path) && ImageFile(path)
  }

  /** A directory that is named must exist. */
  predicate ParentExists(path: string, pathExists: string -> bool)
  {
    ParentPath(path) == "" || pathExists(ParentPath(path))
  }

  /** The output page takes a path in an existing directory whose
      lower-cased extension is .jpg, .png or .bmp (not .jpeg). */
  predicate AcceptsOutputImagePath(path: string, pathExists: string -> bool)
  {
    var ext := ToLower(Extension(path));
    ParentExists(path, pathExists) && (ext == ".jpg" || ext == ".png" || ext == ".bmp")
  }

  /** The GIF page takes a path in an existing directory whose
      lower-cased extension is .gif. */
  predicate AcceptsGifOutputPath(path: string, pathExists: string -> bool)
  {
    ParentExists(path, pathExists) && ToLower(Extension(path)) == ".gif"
  }

  /** Every output path the output page takes names an image file, but
      `.jpeg` is an image file the output page refuses. */
  lemma OutputPathsAreImageFiles(path: string, pathExists: string -> bool)
    ensures AcceptsOutputImagePath(path, pathExists) ==> ImageFile(path)
    ensures ToLower(Extension(path)) == ".jpeg" ==> ImageFile(path) && !AcceptsOutputImagePath(path, pathExists)
  {
  }

  /** A GIF path is never an image path, so no path is taken by both
      output pages. */
  lemma GifPathsAreNotImages(path: string, pathExists: string -> bool)
    ensures AcceptsGifOutputPath(path, pathExists) ==> !ImageFile(path) && !AcceptsOutputImagePath(path, pathExists)
  {
  }

  /** `validatePath`: non-empty, and existing when that is demanded. */
  predicate ValidatePath(path: string, mustExist: bool, pathExists: string -> bool)
  {
    path != "" && (mustExist ==> pathExists(path))
  }

  /** `validateErrorMethod`. */
  predicate ValidateErrorMethod(m: int)
  {
    1 <= m <= 5
  }

  /** `validateThreshold`: only the lower bound. */
  predicate ValidateThreshold(t: real)
  {
    t >= 0.0
  }

  /** `validateMinBlockSize`: only the lower bound. */
  predicate ValidateMinBlockSize(size: int)
  {
    size >= 1
  }

  /** `validateTargetCompression`. */
  predicate ValidateTargetCompression(p: real)
  {
    0.0 <= p <= 1.0
  }

  /** What the pages accept passes the `validate*` checks; the method and
      target checks agree with their pages exactly, while the threshold
      and block-size checks are looser than their pages. An accepted image
      path has an image extension, so it is never empty. */
  lemma PagesAgreeWithValidators(m: ErrorMethod, t: real, size: int, p: real,
                                 path: string, pathExists: string -> bool)
    ensures AcceptsInputImagePath(path, pathExists) ==> ValidatePath(path, true, pathExists)
    ensures AcceptsOutputImagePath(path, pathExists) ==> ValidatePath(path, false, pathExists)
    ensures AcceptsErrorMethod(m) <==> ValidateErrorMethod(m) && IsNamedMethod(m)
    ensures AcceptsThreshold(m, t) ==> ValidateThreshold(t)
    ensures AcceptsMinBlockSize(size) ==> ValidateMinBlockSize(size)
    ensures AcceptsTargetCompression(p) <==> ValidateTargetCompression(p)
    ensures ValidateThreshold(256.0) && !AcceptsThreshold(m, 256.0)
    ensures ValidateMinBlockSize(65) && !AcceptsMinBlockSize(65)
  {
    if path == "" {
      NoDotNoExtension(path);
    }
  }
}
