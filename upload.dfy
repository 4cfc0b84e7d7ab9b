/** The upload checks of the web layer: which file names are accepted as images,
    and the image format a name stands for. */
module Upload {

  /** The accepted extensions, in lower case. */
  const AllowedExtensions: set<string> := {"png", "jpg", "jpeg", "gif", "webp"}

  /** Position of the last '.' in `s`, or -1 when there is none. */
  function LastDot(s: string): (i: int)
    ensures -1 <= i < |s|
    ensures i >= 0 ==> s[i] == '.'
    ensures forall k :: i < k < |s| ==> s[k] != '.'
  {
    if s == [] then -1
    else if s[|s| - 1] == '.' then |s| - 1
    else LastDot(s[..|s| - 1])
  }

  /** `filename.rsplit('.', 1)[1]`: the text after the last dot. */
  function Extension(s: string): string
    requires '.' in s
  {
    s[LastDot(s) + 1..]
  }

  /** ASCII lower-casing of one character. */
  function LowerChar(c: char): char {
    if 'A' <= c <= 'Z' then (c - 'A' + 'a') as char else c
  }

  /** `str.lower()` on ASCII letters; every other character is kept. */
  function Lower(s: string): (r: string)
    ensures |r| == |s|
    ensures forall i :: 0 <= i < |s| ==> r[i] == LowerChar(s[i])
  {
    if s == [] then [] else [LowerChar(s[0])] + Lower(s[1..])
  }

  /** `allowed_file`: the name has a dot and its extension, lower-cased, is accepted. */
  predicate AllowedFile(filename: string)
    ensures AllowedFile(filename) ==> '.' in filename && 3 <= |Extension(filename)| <= 4
  {
    '.' in filename && Lower(Extension(filename)) in AllowedExtensions
  }

  /** `get_image_format`: the lower-cased extension, with "jpg" read as "jpeg". A name
      without a dot has no extension to read. */
  function ImageFormat(filename: string): (r: string)
    requires '.' in filename
    ensures r == "jpeg" <==> Lower(Extension(filename)) in {"jpg", "jpeg"}
    ensures r != "jpeg" ==> r == Lower(Extension(filename))
  {
    var ext := Lower(Extension(filename));
    if ext == "jpg" then "jpeg" else ext
  }

  /** Splitting at the last dot: any split of a name into a stem, a dot and a dot-free
      tail has that tail as its extension. */
  lemma {:induction false} SplitAtLastDot(stem: string, tail: string)
    requires '.' !in tail
    ensures '.' in stem + "." + tail
    ensures Extension(stem + "." + tail) == tail
  {
    var s := stem + "." + tail;
    assert s[|stem|] == '.';
    assert forall k :: |stem| < k < |s| ==> s[k] == tail[k - |stem| - 1];
    assert s[|stem| + 1..] == tail;
  }

  /** A name is accepted exactly when the text after its last dot is an accepted extension
      in some mix of upper and lower case. */
  lemma AllowedIff(stem: string, tail: string)
    requires '.' !in tail
    ensures AllowedFile(stem + "." + tail) <==> Lower(tail) in AllowedExtensions
  {
    SplitAtLastDot(stem, tail);
  }

  /** A name without a dot is never accepted. */
  lemma NoDotRejected(filename: string)
    requires '.' !in filename
    ensures !AllowedFile(filename)
  {}

  /** An accepted name has one of four formats, "jpg" and "jpeg" giving the same one. */
  lemma FormatOfAllowed(filename: string)
    requires AllowedFile(filename)
    ensures ImageFormat(filename) in {"png", "jpeg", "gif", "webp"}
    ensures Lower(Extension(filename)) == "jpg" ==> ImageFormat(filename) == "jpeg"
  {}

  /** The last extension counts, in any case: "<name>.JPG" is a JPEG image. */
  lemma UpperCaseJpeg(stem: string)
    ensures AllowedFile(stem + ".JPG") && ImageFormat(stem + ".JPG") == "jpeg"
  {
    assert stem + ".JPG" == stem + "." + "JPG";
    SplitAtLastDot(stem, "JPG");
    assert Lower("JPG") == "jpg";
  }

  /** Only the last extension counts: "<name>.jpg.txt" is refused. */
  lemma InnerExtensionIgnored(stem: string)
    ensures !AllowedFile(stem + ".jpg.txt")
  {
    assert stem + ".jpg.txt" == (stem + ".jpg") + "." + "txt";
    SplitAtLastDot(stem + ".jpg", "txt");
    assert Lower("txt") == "txt";
  }

  /** A trailing dot leaves an empty extension: "<name>." is refused. */
  lemma TrailingDotRejected(stem: string)
    ensures !AllowedFile(stem + ".")
  {
    assert stem + "." == stem + "." + "";
    SplitAtLastDot(stem, "");
  }
}
