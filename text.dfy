/** String helpers shared by the two input managers: C-locale lower-casing,
    `find_last_of`, the file-name extension and parent directory of a
    POSIX path as `std::filesystem::path` computes them, and the search
    for the first input line a prompt accepts. */
module Text {
  import opened Wrappers

  /** `tolower` in the C locale: only 'A'..'Z' change. */
  function LowerChar(c: char): (d: char)
    ensures 'A' <= c <= 'Z' ==> d as int == c as int + 32
    ensures !('A' <= c <= 'Z') ==> d == c
  {
    if 'A' <= c <= 'Z' then (c as int + 32) as char else c
  }

  /** Every character lower-cased. */
  function ToLower(s: string): (t: string)
    ensures |t| == |s|
    ensures forall i :: 0 <= i < |s| ==> t[i] == LowerChar(s[i])
  {
    if |s| == 0 then [] else ToLower(s[..|s| - 1]) + [LowerChar(s[|s| - 1])]
  }

  /** Lower-casing twice is lower-casing once. */
  lemma ToLowerIdempotent(s: string)
    ensures ToLower(ToLower(s)) == ToLower(s)
  {
    var t := ToLower(s);
    assert forall i :: 0 <= i < |t| ==> LowerChar(t[i]) == t[i];
  }

  /** `for (auto& c : s) c = tolower(c)` and `std::transform(..., ::tolower)`
      applied to a copy: each character is replaced in place, left to
      right. */
  method LowerCopy(s: string) returns (t: string)
    ensures t == ToLower(s)
  {
    t := s;
    var i := 0;
    while i < |t|
      invariant 0 <= i <= |t| == |s|
      invariant forall k :: 0 <= k < i ==> t[k] == LowerChar(s[k])
      invariant forall k :: i <= k < |t| ==> t[k] == s[k]
    {
      t := t[i := LowerChar(t[i])];
      i := i + 1;
    }
  }

  /** `find_last_of(c)`: the index of the last occurrence, or none. */
  function LastIndexOf(s: string, c: char): (k: Option<nat>)
    ensures k.Some? ==> k.value < |s| && s[k.value] == c
                        && forall m :: k.value < m < |s| ==> s[m] != c
    ensures k.None? ==> forall m :: 0 <= m < |s| ==> s[m] != c
  {
    if |s| == 0 then None
    else if s[|s| - 1] == c then Some(|s| - 1)
    else LastIndexOf(s[..|s| - 1], c)
  }

  /** The file name: everything after the last '/'. */
  function Filename(path: string): (name: string)
    ensures '/' !in name
    ensures |name| <= |path| && name == path[|path| - |name|..]
  {
    match LastIndexOf(path, '/')
    case None => path
    case Some(k) => path[k + 1..]
  }

  /** `path::extension()`: the file name from its last '.', except for the
      names "." and "..", and except that a '.' in first position does not
      start an extension. */
  function Extension(path: string): (ext: string)
  {
    var name := Filename(path);
    if name == "." || name == ".." then ""
    else match LastIndexOf(name, '.')
      case None => ""
      case Some(k) => if k == 0 then "" else name[k..]
  }

  /** An extension is empty, or a '.' followed by characters that are
      neither '.' nor '/', and it ends the path. */
  lemma ExtensionShape(path: string)
    ensures var ext := Extension(path);
      |ext| <= |path| && ext == path[|path| - |ext|..]
      && (ext == "" || (ext[0] == '.' && forall i :: 0 < i < |ext| ==> ext[i] != '.' && ext[i] != '/'))
  {
    var name := Filename(path);
    var ext := Extension(path);
    if ext != "" {
      var k := LastIndexOf(name, '.').value;
      assert ext == name[k..];
      assert path[|path| - |ext|..] == name[k..];
    }
  }

  /** A path with no '.' has no extension. */
  lemma NoDotNoExtension(path: string)
    requires '.' !in path
    ensures Extension(path) == ""
  {
    ExtensionShape(path);
  }

  /** `path::parent_path()`, for paths without repeated separators: empty
      when there is no '/', the root for a file directly under it, and
      otherwise everything before the last '/'. */
  function ParentPath(path: string): (parent: string)
    ensures parent == "" <==> '/' !in path
  {
    match LastIndexOf(path, '/')
    case None => ""
    case Some(k) => if k == 0 then "/" else path[..k]
  }

  /** The first line at or after `from` that `accepts` holds for: the
      line a read-until-valid prompt loop stops at. */
  function FirstAccepted(lines: seq<string>, from: nat, accepts: string -> bool): (k: Option<nat>)
    ensures k.Some? ==> from <= k.value < |lines| && accepts(lines[k.value])
    decreases |lines| - from
  {
    if from >= |lines| then None
    else if accepts(lines[from]) then Some(from)
    else FirstAccepted(lines, from + 1, accepts)
  }

  /** `FirstAccepted` finds the earliest accepted line, and finds none
      exactly when no line from `from` on is accepted. */
  lemma {:induction false} FirstAcceptedIsFirst(lines: seq<string>, from: nat, accepts: string -> bool)
    ensures var k := FirstAccepted(lines, from, accepts);
      (k.Some? ==> forall m {:trigger accepts(lines[m])} :: from <= m < k.value ==> !accepts(lines[m]))
      && (k.None? <==> forall m {:trigger accepts(lines[m])} :: from <= m < |lines| ==> !accepts(lines[m]))
    decreases |lines| - from
  {
    if from < |lines| && !accepts(lines[from]) {
      FirstAcceptedIsFirst(lines, from + 1, accepts);
    }
  }

  /** `k` is the first line at or after `from` that `accepts` holds for. */
  predicate FirstAt(lines: seq<string>, from: nat, accepts: string -> bool, k: nat)
  {
    from <= k < |lines| && accepts(lines[k]) && forall m {:trigger accepts(lines[m])} :: from <= m < k ==> !accepts(lines[m])
  }

  /** `FirstAccepted` gives `k` exactly when `k` is the first accepted line. */
  lemma {:induction false} FirstAcceptedAt(lines: seq<string>, from: nat, accepts: string -> bool, k: nat)
    ensures FirstAccepted(lines, from, accepts) == Some(k) <==> FirstAt(lines, from, accepts, k)
  {
    FirstAcceptedIsFirst(lines, from, accepts);
    var found := FirstAccepted(lines, from, accepts);
    if FirstAt(lines, from, accepts, k) {
      assert found.Some?;
      assert !(found.value < k) && !(k < found.value);
    }
  }

  /** A y/n answer, in any case: y or yes is true, n or no is false, and
      anything else, the empty line included, is no answer. */
  function YesNo(line: string): (answer: Option<bool>)
    ensures answer == Some(true) <==> ToLower(line) in {"y", "yes"}
    ensures answer == Some(false) <==> ToLower(line) in {"n", "no"}
    ensures line == "" ==> answer.None?
  {
    var lower := ToLower(line);
    if lower == "y" || lower == "yes" then Some(true)
    else if lower == "n" || lower == "no" then Some(false)
    else None
  }

  /** A prompt loop that reads lines from `from` until one is accepted;
      none when the input runs out first. */
  method ReadUntilAccepted(lines: seq<string>, from: nat, accepts: string -> bool) returns (k: Option<nat>)
    ensures k == FirstAccepted(lines, from, accepts)
  {
    var i := from;
    while i < |lines|
      invariant from <= i
      invariant FirstAccepted(lines, i, accepts) == FirstAccepted(lines, from, accepts)
    {
      if accepts(lines[i]) {
        return Some(i);
      }
      i := i + 1;
    }
    return None;
  }
}
