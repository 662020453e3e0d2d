/** getMimeType (Bot.js:1093-1132): the MIME type of a downloaded file,
    from the extension of its link as Node's POSIX `path.extname` finds it. */
module Mime {

  const DefaultMime: string := "application/octet-stream"

  /** The `switch` of getMimeType on the lower-cased extension. */
  function MimeOfExtension(ext: string): string
  {
    match ext
    case ".jpg" => "image/jpeg"
    case ".jpeg" => "image/jpeg"
    case ".png" => "image/png"
    case ".gif" => "image/gif"
    case ".webp" => "image/webp"
    case ".heic" => "image/heic"
    case ".heif" => "image/heif"
    case ".wav" => "audio/wav"
    case ".mp3" => "audio/mp3"
    case ".aiff" => "audio/aiff"
    case ".ogg" => "audio/ogg"
    case ".flac" => "audio/flac"
    case ".pdf" => "application/pdf"
    case ".mp4" => "video/mp4"
    case ".webm" => "video/webm"
    case ".avi" => "video/avi"
    case ".mov" => "video/quicktime"
    case _ => DefaultMime
  }

  function LowerChar(c: char): char
  {
    if 'A' <= c <= 'Z' then (c as int + 32) as char else c
  }

  /** `s.toLowerCase()` on the letters that matter to the table. */
  function ToLower(s: string): (r: string)
    ensures |r| == |s|
    ensures forall i | 0 <= i < |s| :: r[i] == LowerChar(s[i])
  {
    if s == [] then [] else [LowerChar(s[0])] + ToLower(s[1..])
  }

  /** The path with its trailing slashes removed: a prefix not ending in a
      slash, and everything cut off is a slash. */
  function StripTrailingSlashes(p: string): (r: string)
    ensures |r| <= |p| && r == p[..|r|]
    ensures r == [] || r[|r| - 1] != '/'
    ensures forall i | |r| <= i < |p| :: p[i] == '/'
  {
    if p != [] && p[|p| - 1] == '/' then StripTrailingSlashes(p[..|p| - 1]) else p
  }

  /** Index of the last occurrence of `c` in `s`, or -1. */
  function LastIndexOf(s: string, c: char): (d: int)
    ensures -1 <= d < |s|
    ensures d >= 0 ==> s[d] == c
    ensures forall i | d < i < |s| :: s[i] != c
  {
    if s == [] then -1 else if s[|s| - 1] == c then |s| - 1 else LastIndexOf(s[..|s| - 1], c)
  }

  /** What follows the last slash: a suffix without slashes that is the
      whole path or comes right after a slash. */
  function LastSegment(p: string): (r: string)
    ensures |r| <= |p| && r == p[|p| - |r|..]
    ensures forall i | 0 <= i < |r| :: r[i] != '/'
    ensures |r| < |p| ==> p[|p| - |r| - 1] == '/'
  {
    p[LastIndexOf(p, '/') + 1..]
  }

  /** An extension `path.extname` can return: a dot followed by characters
      that are neither dots nor slashes. */
  predicate IsExtension(e: string)
  {
    |e| >= 1 && e[0] == '.' && forall i | 1 <= i < |e| :: e[i] != '.' && e[i] != '/'
  }

  /** Node's `path.posix.extname(p)`: in the last segment (trailing slashes
      ignored), from the last dot to the end; empty when the segment has no
      dot, when its only leading character is that dot (a dot-file such as
      `.pdf`), or when the segment is `..`. */
  function Extname(p: string): string
  {
    SegmentExtension(LastSegment(StripTrailingSlashes(p)))
  }

  /** Trailing slashes do not change the extension: `path.extname("a.pdf/")`
      is `.pdf`. */
  lemma ExtnameIgnoresTrailingSlash(p: string)
    ensures Extname(p + "/") == Extname(p)
  {
    assert (p + "/")[..|p|] == p;
  }

  /** What `path.extname` returns is empty or an extension. */
  lemma ExtnameIsExtension(p: string)
    ensures Extname(p) == [] || IsExtension(Extname(p))
  {
    SlashFreeSegmentExtension(LastSegment(StripTrailingSlashes(p)));
  }

  lemma SlashFreeSegmentExtension(seg: string)
    requires forall i | 0 <= i < |seg| :: seg[i] != '/'
    ensures SegmentExtension(seg) == [] || IsExtension(SegmentExtension(seg))
  {
    var e := SegmentExtension(seg);
    forall i | 0 <= i < |e| ensures e[i] != '/' {
      assert e[i] == seg[|seg| - |e| + i];
    }
  }

  /** The extension part of one path segment. */
  function SegmentExtension(seg: string): (e: string)
    ensures |e| <= |seg| && e == seg[|seg| - |e|..]
    ensures e == [] || (e[0] == '.' && forall i | 1 <= i < |e| :: e[i] != '.')
    ensures e == [] <==> seg == ".." || forall i | 0 < i < |seg| :: seg[i] != '.'
  {
    var d := LastIndexOf(seg, '.');
    if d <= 0 || seg == ".." then [] else seg[d..]
  }

  /** `getMimeType(fileLink)`: the table entry for the lower-cased
      extension, and the generic binary type for any other or no extension. */
  function GetMimeType(fileLink: string): string
  {
    MimeOfExtension(ToLower(Extname(fileLink)))
  }

  /** Every `case` label is an extension in Node's sense. */
  lemma ListedAreExtensions(e: string)
    requires MimeOfExtension(e) != DefaultMime
    ensures IsExtension(e) && |e| >= 4
  {
  }

  /** Lower-casing keeps every slash and every dot where it was. */
  lemma ToLowerKeepsSlashesAndDots(s: string, i: int)
    requires 0 <= i < |s|
    ensures (ToLower(s)[i] == '/') == (s[i] == '/')
    ensures (ToLower(s)[i] == '.') == (s[i] == '.')
  {
  }

  lemma ToLowerSlices(s: string, k: nat)
    requires k <= |s|
    ensures ToLower(s[..k]) == ToLower(s)[..k]
    ensures ToLower(s[k..]) == ToLower(s)[k..]
  {
  }

  lemma {:induction false} StripCommutesWithLower(p: string)
    ensures StripTrailingSlashes(ToLower(p)) == ToLower(StripTrailingSlashes(p))
  {
    if p != [] {
      ToLowerSlices(p, |p| - 1);
      if p[|p| - 1] == '/' {
        StripCommutesWithLower(p[..|p| - 1]);
      }
    }
  }

  lemma {:induction false} LastIndexUnderLower(s: string, c: char)
    requires c == '/' || c == '.'
    ensures LastIndexOf(ToLower(s), c) == LastIndexOf(s, c)
  {
    if s != [] {
      var n := |s| - 1;
      ToLowerSlices(s, n);
      assert (ToLower(s)[n] == c) == (s[n] == c);
      if s[n] != c {
        LastIndexUnderLower(s[..n], c);
      }
    }
  }

  lemma SegmentCommutesWithLower(p: string)
    ensures LastSegment(ToLower(p)) == ToLower(LastSegment(p))
  {
    LastIndexUnderLower(p, '/');
    ToLowerSlices(p, LastIndexOf(p, '/') + 1);
  }

  /** The extension of the lower-cased link is the lower-cased extension. */
  lemma ExtnameCommutesWithLower(p: string)
    ensures Extname(ToLower(p)) == ToLower(Extname(p))
  {
    var sp := StripTrailingSlashes(p);
    StripCommutesWithLower(p);
    SegmentCommutesWithLower(sp);
    SegmentExtensionUnderLower(LastSegment(sp));
  }

  lemma SegmentExtensionUnderLower(seg: string)
    ensures SegmentExtension(ToLower(seg)) == ToLower(SegmentExtension(seg))
  {
    LastIndexUnderLower(seg, '.');
    DotDotUnderLower(seg);
    var d := LastIndexOf(seg, '.');
    if d > 0 && seg != ".." {
      ToLowerSlices(seg, d);
    }
  }

  lemma DotDotUnderLower(s: string)
    ensures (ToLower(s) == "..") == (s == "..")
  {
    if |s| == 2 && ToLower(s) == ".." {
      ToLowerKeepsSlashesAndDots(s, 0);
      ToLowerKeepsSlashesAndDots(s, 1);
    }
  }

  /** getMimeType ignores the case of the link: links that agree up to
      upper/lower case get the same type. */
  lemma MimeTypeCaseInsensitive(p: string, q: string)
    requires ToLower(p) == ToLower(q)
    ensures GetMimeType(p) == GetMimeType(q)
  {
    ExtnameCommutesWithLower(p);
    ExtnameCommutesWithLower(q);
    LowerIdempotent(Extname(p));
    LowerIdempotent(Extname(q));
  }

  lemma LowerIdempotent(s: string)
    ensures ToLower(ToLower(s)) == ToLower(s)
  {
  }

  /** A link made of a non-empty name not ending in a slash and one of the
      listed extensions, in any case, gets that extension's type. */
  lemma KnownExtension(name: string, ext: string)
    requires name != [] && name[|name| - 1] != '/'
    requires MimeOfExtension(ToLower(ext)) != DefaultMime
    ensures GetMimeType(name + ext) == MimeOfExtension(ToLower(ext))
  {
    ListedAreExtensions(ToLower(ext));
    forall i | 0 <= i < |ext| ensures ext[i] != '/' && (i > 0 ==> ext[i] != '.') && (i == 0 ==> ext[i] == '.') {
      ToLowerKeepsSlashesAndDots(ext, i);
    }
    ExtnameOfAppend(name, ext);
  }

  /** The extension of a non-empty name not ending in a slash, followed by
      an extension, is that extension. */
  lemma ExtnameOfAppend(name: string, ext: string)
    requires name != [] && name[|name| - 1] != '/'
    requires IsExtension(ext) && |ext| >= 2
    ensures Extname(name + ext) == ext
  {
    var p := name + ext;
    assert p[|p| - 1] != '/';
    assert StripTrailingSlashes(p) == p;
    var k := LastIndexOf(p, '/');
    assert k < |name| - 1;
    var seg := p[k + 1..];
    assert |seg| > |ext| && seg[|seg| - |ext|..] == ext;
    LastDotOfSuffix(seg, |seg| - |ext|);
    assert seg != "..";
  }

  lemma LastDotOfSuffix(s: string, k: nat)
    requires k < |s| && s[k] == '.'
    requires forall i | k < i < |s| :: s[i] != '.'
    ensures LastIndexOf(s, '.') == k
  {
    if k < |s| - 1 {
      LastDotOfSuffix(s[..|s| - 1], k);
    }
  }

  /** A link whose last segment has no extension (no dot, or only a
      leading one) gets the generic binary type. */
  lemma NoExtensionIsBinary(p: string)
    requires Extname(p) == []
    ensures GetMimeType(p) == DefaultMime
  {
    var lowered := ToLower(Extname(p));
    assert |lowered| == 0;
    assert GetMimeType(p) == MimeOfExtension(lowered);
  }
}
