/** The path helpers of `odbk_utils.cpp`, and `locate_sym_file`, which composes
    them. C strings are sequences without NUL, kept in character arrays. */
module PathNames {
  const MAX_PATH := 260
  const NUL: char := '\0'

  predicate IsCString(s: string) {
    NUL !in s
  }

  /** The string a buffer holds: everything before its first NUL. */
  function CString(buffer: seq<char>): string {
    if buffer == [] || buffer[0] == NUL then [] else [buffer[0]] + CString(buffer[1..])
  }

  lemma {:induction false} CStringIs(s: string, rest: seq<char>)
    requires IsCString(s) && rest != [] && rest[0] == NUL
    ensures CString(s + rest) == s
    decreases |s|
  {
    if s == [] {
      assert s + rest == rest;
    } else {
      assert (s + rest)[1..] == s[1..] + rest;
      CStringIs(s[1..], rest);
    }
  }

  // ---------------------------------------------------------------- the split

  predicate IsSeparator(c: char) {
    c == '\\' || c == '/'
  }

  /** `strrchr`, as an index; -1 stands for NULL. */
  function LastIndexOf(s: string, c: char): (i: int)
    ensures -1 <= i < |s|
    ensures i >= 0 ==> s[i] == c
    ensures forall k :: i < k < |s| ==> s[k] != c
  {
    if s == [] then -1
    else if s[|s| - 1] == c then |s| - 1
    else LastIndexOf(s[..|s| - 1], c)
  }

  /** The later of the last backslash and the last slash. */
  function PathEnd(s: string): int {
    var slash1, slash2 := LastIndexOf(s, '\\'), LastIndexOf(s, '/');
    if slash1 > slash2 then slash1 else slash2
  }

  function Title(s: string): string {
    s[PathEnd(s) + 1..]
  }

  function Directory(s: string): string {
    s[..PathEnd(s) + 1]
  }

  ghost predicate IsSplit(path: string, title: string) {
    && (forall c :: c in title ==> c != '\\' && c != '/')
    && (path != [] ==> path[|path| - 1] == '\\' || path[|path| - 1] == '/')
  }

  /** `PathEnd` is the one index that has a separator and none behind it. */
  lemma PathEndIs(s: string, end: int)
    requires -1 <= end < |s| && (end >= 0 ==> IsSeparator(s[end]))
    requires forall k :: end < k < |s| ==> !IsSeparator(s[k])
    ensures PathEnd(s) == end
  {
  }

  lemma SplitLaws(s: string)
    ensures Directory(s) + Title(s) == s && IsSplit(Directory(s), Title(s))
  {
    assert forall k :: PathEnd(s) < k < |s| ==> !IsSeparator(s[k]);
  }

  /** The only way to cut a name after its last separator is (directory, title). */
  lemma SplitIsUnique(s: string, path: string, title: string)
    ensures path == Directory(s) && title == Title(s) <==> path + title == s && IsSplit(path, title)
  {
    SplitLaws(s);
    if path + title == s && IsSplit(path, title) {
      forall k | |path| <= k < |s|
        ensures !IsSeparator(s[k])
      {
        assert s[k] == title[k - |path|] && title[k - |path|] in title;
      }
      PathEndIs(s, |path| - 1);
    }
  }

  /** Both helpers are idempotent, and each leaves nothing for the other. */
  lemma SplitIsIdempotent(s: string)
    ensures Title(Title(s)) == Title(s) && Directory(Title(s)) == ""
    ensures Directory(Directory(s)) == Directory(s) && Title(Directory(s)) == ""
  {
    SplitLaws(s);
    PathEndIs(Title(s), -1);
    PathEndIs(Directory(s), |Directory(s)| - 1);
  }

  // ------------------------------------------------------------ in the buffers

  /** `memcpy` of `src` to `dst + at`. */
  method CopyTo(dst: array<char>, at: nat, src: seq<char>)
    requires at + |src| <= dst.Length
    modifies dst
    ensures dst[..] == old(dst[..at]) + src + old(dst[at + |src|..])
  {
    for i := 0 to |src|
      invariant dst[..] == old(dst[..at]) + src[..i] + old(dst[at + i..])
    {
      dst[at + i] := src[i];
    }
  }

  /** `strcpy` */
  method StrCpy(dst: array<char>, src: string)
    requires IsCString(src) && |src| < dst.Length
    modifies dst
    ensures CString(dst[..]) == src
  {
    CopyTo(dst, 0, src + [NUL]);
    assert dst[..] == src + ([NUL] + old(dst[|src| + 1..]));
    CStringIs(src, [NUL] + old(dst[|src| + 1..]));
  }

  method GetFileTitle(fileName: string, fileTitle: array<char>)
    requires IsCString(fileName) && |Title(fileName)| < fileTitle.Length
    modifies fileTitle
    ensures CString(fileTitle[..]) == Title(fileName)
  {
    var slash1 := LastIndexOf(fileName, '\\');
    var slash2 := LastIndexOf(fileName, '/');
    var pathEnd := if slash1 > slash2 then slash1 else slash2;
    if pathEnd == -1 {
      StrCpy(fileTitle, fileName);
    } else {
      StrCpy(fileTitle, fileName[pathEnd + 1..]);
    }
  }

  method GetFilePath(fileName: string, path: array<char>)
    requires IsCString(fileName) && |Directory(fileName)| < path.Length
    modifies path
    ensures CString(path[..]) == Directory(fileName)
  {
    var slash1 := LastIndexOf(fileName, '\\');
    var slash2 := LastIndexOf(fileName, '/');
    var pathEnd := if slash1 > slash2 then slash1 else slash2;
    if pathEnd == -1 {
      path[0] := NUL;
    } else {
      var length := pathEnd + 1;
      CopyTo(path, 0, fileName[..length]);
      path[length] := NUL;
      assert path[..length] == fileName[..length];
      assert path[..] == fileName[..length] + path[length..];
      CStringIs(fileName[..length], path[length..]);
    }
  }

  // ------------------------------------------------------------ locate_sym_file

  /** `strcat` */
  method StrCat(dst: array<char>, src: string)
    requires IsCString(src) && NUL in dst[..] && |CString(dst[..])| + |src| < dst.Length
    modifies dst
    ensures CString(dst[..]) == old(CString(dst[..])) + src
  {
    var front := CString(dst[..]);
    CStringIsPrefix(dst[..]);
    CopyTo(dst, |front|, src + [NUL]);
    assert old(dst[..|front|]) == front;
    Appended(front, src, old(dst[|front| + |src| + 1..]));
  }

  lemma Appended(front: string, src: string, rest: seq<char>)
    requires IsCString(front) && IsCString(src)
    ensures CString(front + (src + [NUL]) + rest) == front + src
  {
    assert front + (src + [NUL]) + rest == (front + src) + ([NUL] + rest);
    CStringIs(front + src, [NUL] + rest);
  }

  lemma {:induction false} CStringIsPrefix(buffer: seq<char>)
    ensures IsCString(CString(buffer)) && CString(buffer) <= buffer
    decreases |buffer|
  {
    if buffer != [] && buffer[0] != NUL {
      CStringIsPrefix(buffer[1..]);
    }
  }

  /** `strncpy` with the size of the buffer: what is left is filled with NUL. */
  method StrNCpy(dst: array<char>, src: string)
    requires IsCString(src) && |src| < dst.Length
    modifies dst
    ensures dst[..] == src + seq(dst.Length - |src|, _ => NUL)
  {
    CopyTo(dst, 0, src + seq(dst.Length - |src|, _ => NUL));
  }

  /** The file next to the image with the debug file's title. */
  function BesideImage(cvData: string, imageName: string): string {
    Directory(imageName) + Title(cvData)
  }

  /** It is the one name with the image's directory and the debug file's title. */
  lemma BesideImageIs(cvData: string, imageName: string, name: string)
    ensures name == BesideImage(cvData, imageName) <==> Directory(name) == Directory(imageName) && Title(name) == Title(cvData)
  {
    SplitLaws(name);
    SplitLaws(cvData);
    SplitLaws(imageName);
    SplitIsUnique(BesideImage(cvData, imageName), Directory(imageName), Title(cvData));
  }

  /** Tries the full debug path, then the same title in the image's directory;
      nothing is written when neither exists. */
  method LocateSymFile(cvData: string, imageName: string, fileExists: string -> bool, fileName: array<char>)
    returns (found: bool)
    requires IsCString(cvData) && IsCString(imageName) && fileName.Length == MAX_PATH
    requires |cvData| < MAX_PATH && |imageName| < MAX_PATH
    requires !fileExists(cvData) ==> |BesideImage(cvData, imageName)| < MAX_PATH
    modifies fileName
    ensures found <==> fileExists(cvData) || fileExists(BesideImage(cvData, imageName))
    ensures found ==>
      CString(fileName[..]) == if fileExists(cvData) then cvData else BesideImage(cvData, imageName)
    ensures !found ==> fileName[..] == old(fileName[..])
  {
    if fileExists(cvData) {
      StrNCpy(fileName, cvData);
      CStringIs(cvData, seq(MAX_PATH - |cvData|, _ => NUL));
      return true;
    }
    var symbolTitle := new char[MAX_PATH];
    GetFileTitle(cvData, symbolTitle);
    var imagePath := new char[MAX_PATH];
    GetFilePath(imageName, imagePath);
    CStringIsPrefix(symbolTitle[..]);
    EndsInNul(imagePath[..]);
    StrCat(imagePath, CString(symbolTitle[..]));
    var candidate := CString(imagePath[..]);
    CStringIsPrefix(imagePath[..]);
    if fileExists(candidate) {
      StrNCpy(fileName, candidate);
      CStringIs(candidate, seq(MAX_PATH - |candidate|, _ => NUL));
      return true;
    }
    return false;
  }

  lemma {:induction false} EndsInNul(buffer: seq<char>)
    requires |CString(buffer)| < |buffer|
    ensures NUL in buffer
    decreases |buffer|
  {
    if buffer[0] != NUL {
      EndsInNul(buffer[1..]);
    }
  }

  // ------------------------------------------------------- the file's extension

  /** The last dot among the first `n` characters. */
  predicate IsLastDot(s: seq<char>, n: nat, dot: nat) {
    dot < n <= |s| && s[dot] == '.' && forall k :: dot < k < n ==> s[k] != '.'
  }

  /** Overwrites what follows the last dot; the source relies on there being one and
      on room for the extension. */
  method ReplaceExtension(fileName: array<char>, n: nat, ext: seq<char>, size: nat, ghost lastDot: nat)
    returns (length: nat)
    requires size <= |ext| && n <= fileName.Length && IsLastDot(fileName[..], n, lastDot)
    requires lastDot + 1 + size <= fileName.Length
    modifies fileName
    ensures length == lastDot + size
    ensures fileName[..] == old(fileName[..lastDot + 1]) + ext[..size] + old(fileName[lastDot + 1 + size..])
  {
    var dot: int := n - 1;
    while fileName[dot] != '.'
      invariant lastDot <= dot < n
      decreases dot
    {
      dot := dot - 1;
    }
    CopyTo(fileName, dot + 1, ext[..size]);
    length := dot + size;
  }

  function WithExtension(s: string, dot: nat, ext: string): string
    requires dot < |s|
  {
    s[..dot + 1] + ext
  }

  /** The overload for literals: the NUL is part of the literal, so the buffer holds
      the new name and the result is its exact length. */
  method ReplaceExtensionLiteral(fileName: array<char>, n: nat, ext: string, ghost lastDot: nat) returns (length: nat)
    requires IsCString(ext) && n <= |CString(fileName[..])| <= fileName.Length && IsLastDot(fileName[..], n, lastDot)
    requires lastDot + 1 + |ext| < fileName.Length
    modifies fileName
    ensures CString(fileName[..]) == WithExtension(old(CString(fileName[..])), lastDot, ext)
    ensures length == |CString(fileName[..])|
  {
    ghost var name := CString(fileName[..]);
    CStringIsPrefix(fileName[..]);
    length := ReplaceExtension(fileName, n, ext + [NUL], |ext| + 1, lastDot);
    ghost var rest := old(fileName[lastDot + 1 + |ext| + 1..]);
    assert old(fileName[..lastDot + 1]) == name[..lastDot + 1];
    assert fileName[..] == WithExtension(name, lastDot, ext) + ([NUL] + rest);
    CStringIs(WithExtension(name, lastDot, ext), [NUL] + rest);
  }

  /** Replacing again by the same dot-free extension changes nothing. */
  lemma ReplacingTwice(s: string, dot: nat, ext: string)
    requires IsLastDot(s, |s|, dot) && '.' !in ext
    ensures var t := WithExtension(s, dot, ext);
      IsLastDot(t, |t|, dot) && WithExtension(t, dot, ext) == t
  {
  }

  lemma EndsBefore(s: string, dot: nat)
    requires dot < |s| && forall k :: dot < k < |s| ==> !IsSeparator(s[k])
    ensures PathEnd(s) <= dot
  {
  }

  lemma SameEnd(s: string, t: string, dot: nat)
    requires dot < |s| && dot < |t| && s[..dot + 1] == t[..dot + 1] && PathEnd(s) < dot
    requires forall k :: dot < k < |t| ==> !IsSeparator(t[k])
    ensures PathEnd(t) == PathEnd(s)
  {
    var end := PathEnd(s);
    assert forall k :: 0 <= k <= dot ==> t[k] == t[..dot + 1][k] == s[..dot + 1][k] == s[k];
    PathEndIs(t, end);
  }

  /** The directory survives if and only if the last dot follows the last separator. */
  lemma DirectorySurvives(s: string, dot: nat, ext: string)
    requires IsLastDot(s, |s|, dot) && forall c :: c in ext ==> !IsSeparator(c)
    ensures Directory(WithExtension(s, dot, ext)) == Directory(s) <==> PathEnd(s) < dot
  {
    var t := WithExtension(s, dot, ext);
    forall k | dot < k < |t|
      ensures !IsSeparator(t[k])
    {
      assert t[k] in ext;
    }
    if PathEnd(s) < dot {
      assert s[..dot + 1] == t[..dot + 1];
      SameEnd(s, t, dot);
      assert s[..PathEnd(s) + 1] == s[..dot + 1][..PathEnd(s) + 1] == t[..PathEnd(s) + 1];
    } else {
      EndsBefore(t, dot);
      assert s[PathEnd(s)] != '.';
      assert |Directory(t)| < |Directory(s)|;
    }
  }
}
