/**
 * The two validators attached to server icon uploads: a limit on the pixel
 * dimensions of the image and an allow-list of file extensions. Each either
 * passes or fails with a validation error; a failure rejects the upload.
 */
module Validators {
  import opened Options

  datatype ValidationError =
    | ImageTooLarge(width: nat, height: nat)
    | UnsupportedExtension(ext: string)

  datatype Outcome = Pass | Fail(error: ValidationError)

  /** The pixel dimensions of a decoded image. */
  datatype Image = Image(width: nat, height: nat)

  /** The largest width and height, in pixels, an icon may have. */
  const MaxIconSide: nat := 70

  /**
   * The icon size check. `None` stands for an empty file field, which is
   * falsy and is not opened at all.
   */
  function ValidateIconImageSize(image: Option<Image>): (r: Outcome)
    ensures r.Pass? <==> image.None? || (image.value.width <= MaxIconSide && image.value.height <= MaxIconSide)
    ensures r.Fail? ==> r.error == ImageTooLarge(image.value.width, image.value.height)
  {
    match image
    case None => Pass
    case Some(img) =>
      if img.width > MaxIconSide || img.height > MaxIconSide then Fail(ImageTooLarge(img.width, img.height))
      else Pass
  }

  /** Shrinking an accepted icon in either direction keeps it accepted. */
  lemma SmallerIconStaysAccepted(big: Image, small: Image)
    requires ValidateIconImageSize(Some(big)).Pass?
    requires small.width <= big.width && small.height <= big.height
    ensures ValidateIconImageSize(Some(small)).Pass?
  {
  }

  lemma IconSizeBoundary()
    ensures ValidateIconImageSize(None).Pass?
    ensures ValidateIconImageSize(Some(Image(70, 70))).Pass?
    ensures ValidateIconImageSize(Some(Image(1, 70))).Pass?
    ensures ValidateIconImageSize(Some(Image(70, 1))).Pass?
    ensures ValidateIconImageSize(Some(Image(71, 1))).Fail?
    ensures ValidateIconImageSize(Some(Image(1, 71))).Fail?
  {
  }

  /** The position of the last `c` in `s`, or -1 if there is none (`str.rfind`). */
  function LastIndex(s: string, c: char): (r: int)
    ensures -1 <= r < |s|
    ensures r >= 0 ==> s[r] == c
    ensures forall j :: r < j < |s| ==> s[j] != c
    decreases |s|
  {
    if s == [] then -1
    else if s[|s| - 1] == c then |s| - 1
    else LastIndex(s[..|s| - 1], c)
  }

  /** The three properties of LastIndex determine it. */
  lemma LastIndexUnique(s: string, c: char, r: int)
    requires -1 <= r < |s|
    requires r >= 0 ==> s[r] == c
    requires forall j :: r < j < |s| ==> s[j] != c
    ensures LastIndex(s, c) == r
  {
  }

  predicate AllDots(s: string) {
    forall i :: 0 <= i < |s| ==> s[i] == '.'
  }

  /** The part of a path after its last `/`. */
  function FinalComponent(p: string): string {
    p[LastIndex(p, '/') + 1..]
  }

  /** The final component of `root` holds some character other than a dot. */
  predicate HasStem(root: string) {
    !AllDots(FinalComponent(root))
  }

  /** `ext` is empty, or a dot followed by characters that are neither dots nor slashes. */
  predicate IsExtensionShaped(ext: string) {
    ext == [] || (ext[0] == '.' && forall i :: 1 <= i < |ext| ==> ext[i] != '.' && ext[i] != '/')
  }

  /**
   * `os.path.splitext` on a POSIX path: the extension runs from the last dot
   * of the final component, provided something other than dots precedes
   * that dot within the component; otherwise it is empty.
   */
  function SplitExt(p: string): (r: (string, string))
    ensures r.0 + r.1 == p
    ensures IsExtensionShaped(r.1)
    ensures r.1 != [] ==> HasStem(r.0)
  {
    var sep := LastIndex(p, '/');
    var dot := LastIndex(p, '.');
    if dot > sep && !AllDots(p[sep + 1..dot]) then
      SplitAtDot(p, sep, dot);
      (p[..dot], p[dot..])
    else (p, [])
  }

  /** Splitting at the last dot, when it lies after the last slash with a stem before it. */
  lemma SplitAtDot(p: string, sep: int, dot: int)
    requires sep == LastIndex(p, '/') && dot == LastIndex(p, '.')
    requires dot > sep && !AllDots(p[sep + 1..dot])
    ensures p[..dot] + p[dot..] == p
    ensures IsExtensionShaped(p[dot..])
    ensures HasStem(p[..dot])
  {
    var ext := p[dot..];
    assert forall i :: 1 <= i < |ext| ==> ext[i] == p[dot + i];
    LastIndexUnique(p[..dot], '/', sep);
    assert FinalComponent(p[..dot]) == p[sep + 1..dot];
  }

  /** Appending text without `c` does not move the last `c`. */
  lemma LastIndexAppend(a: string, b: string, c: char)
    requires forall i :: 0 <= i < |b| ==> b[i] != c
    ensures LastIndex(a + b, c) == LastIndex(a, c)
  {
    var r := LastIndex(a, c);
    assert forall j :: r < j < |a + b| ==> (a + b)[j] != c by {
      forall j | r < j < |a + b|
        ensures (a + b)[j] != c
      {
        if j < |a| { assert (a + b)[j] == a[j]; } else { assert (a + b)[j] == b[j - |a|]; }
      }
    }
    LastIndexUnique(a + b, c, r);
  }

  /** An extension as `SplitExt` returns it when there is a stem: a dot, then no dot and no slash. */
  predicate IsSimpleExtension(ext: string) {
    ext != [] && IsExtensionShaped(ext)
  }

  /** Where `rfind` finds the slash and the dot in a root followed by a simple extension. */
  lemma LastIndexOfStemAndExtension(root: string, ext: string)
    requires IsSimpleExtension(ext)
    ensures LastIndex(root + ext, '/') == LastIndex(root, '/')
    ensures LastIndex(root + ext, '.') == |root|
  {
    var suffix := ext[1..];
    assert ext == ['.'] + suffix;
    assert root + ['.'] + suffix == root + ext;
    assert forall i :: 0 <= i < |ext| ==> ext[i] != '/';
    LastIndexAppend(root, ext, '/');
    assert forall i :: 0 <= i < |suffix| ==> suffix[i] != '.';
    LastIndexAppend(root + ['.'], suffix, '.');
    LastIndexUnique(root + ['.'], '.', |root|);
  }

  /** Appending a simple extension to a root that has a stem splits back into the two parts. */
  lemma SplitExtOfStem(root: string, ext: string)
    requires HasStem(root) && IsSimpleExtension(ext)
    ensures SplitExt(root + ext) == (root, ext)
  {
    var p := root + ext;
    var sep := LastIndex(root, '/');
    LastIndexOfStemAndExtension(root, ext);
    assert p[sep + 1..|root|] == FinalComponent(root);
    assert p[..|root|] == root;
    assert p[|root|..] == ext;
  }

  const AllowedExtensions: seq<string> := [".jpg", ".jpeg", ".gif", ".png"]

  /** The extension check on the uploaded file's name; the comparison is exact, so case matters. */
  function ValidateImageFileExtension(name: string): (r: Outcome)
    ensures r.Pass? <==> SplitExt(name).1 in AllowedExtensions
    ensures r.Fail? ==> r.error == UnsupportedExtension(SplitExt(name).1)
  {
    var ext := SplitExt(name).1;
    if ext !in AllowedExtensions then Fail(UnsupportedExtension(ext)) else Pass
  }

  /** `name` is some stem followed by exactly the extension `e`. */
  predicate EndsWithExtension(name: string, e: string) {
    |e| <= |name| && name[|name| - |e|..] == e && HasStem(name[..|name| - |e|])
  }

  /** Each allowed extension is a dot followed by letters only. */
  lemma AllowedExtensionShape(i: nat)
    requires i < |AllowedExtensions|
    ensures var e := AllowedExtensions[i];
      |e| > 1 && e[0] == '.' && (forall j :: 1 <= j < |e| ==> 'a' <= e[j] <= 'z') && IsSimpleExtension(e)
  {
  }

  lemma AcceptedNameHasForm(name: string)
    requires ValidateImageFileExtension(name).Pass?
    ensures exists i :: 0 <= i < |AllowedExtensions| && EndsWithExtension(name, AllowedExtensions[i])
  {
    var (root, ext) := SplitExt(name);
    var i :| 0 <= i < |AllowedExtensions| && AllowedExtensions[i] == ext;
    assert name[..|name| - |ext|] == root;
    assert name[|name| - |ext|..] == ext;
    assert EndsWithExtension(name, AllowedExtensions[i]);
  }

  lemma FormIsAccepted(name: string, i: nat)
    requires i < |AllowedExtensions| && EndsWithExtension(name, AllowedExtensions[i])
    ensures ValidateImageFileExtension(name).Pass?
  {
    var e := AllowedExtensions[i];
    var stem := name[..|name| - |e|];
    AllowedExtensionShape(i);
    assert name == stem + e;
    SplitExtOfStem(stem, e);
    assert SplitExt(name).1 == e;
  }

  /**
   * The extension check accepts exactly the names that end in one of the
   * allowed extensions preceded by a non-empty stem of the final component.
   */
  lemma ExtensionCheckAcceptsExactly(name: string)
    ensures ValidateImageFileExtension(name).Pass? <==>
      exists i :: 0 <= i < |AllowedExtensions| && EndsWithExtension(name, AllowedExtensions[i])
  {
    if ValidateImageFileExtension(name).Pass? {
      AcceptedNameHasForm(name);
    }
    if i :| 0 <= i < |AllowedExtensions| && EndsWithExtension(name, AllowedExtensions[i]) {
      FormIsAccepted(name, i);
    }
  }

  /** A name whose final component holds no dot has an empty extension and is rejected. */
  lemma NoDotRejected(name: string)
    requires forall i :: LastIndex(name, '/') < i < |name| ==> name[i] != '.'
    ensures SplitExt(name).1 == []
    ensures ValidateImageFileExtension(name) == Fail(UnsupportedExtension([]))
  {
  }

  /** A file name without a slash that does not begin with a dot. */
  predicate IsPlainStem(stem: string) {
    |stem| > 0 && stem[0] != '.' && forall j :: 0 <= j < |stem| ==> stem[j] != '/'
  }

  lemma PlainStemHasStem(stem: string)
    requires IsPlainStem(stem)
    ensures HasStem(stem)
  {
    LastIndexUnique(stem, '/', -1);
    assert FinalComponent(stem) == stem;
  }

  /** The verdict on `stem` + `ext` depends on `ext` alone. */
  lemma PlainNameVerdict(stem: string, ext: string)
    requires IsPlainStem(stem) && IsSimpleExtension(ext)
    ensures ValidateImageFileExtension(stem + ext)
         == if ext in AllowedExtensions then Pass else Fail(UnsupportedExtension(ext))
  {
    PlainStemHasStem(stem);
    SplitExtOfStem(stem, ext);
  }

  /** A plain stem followed by a dot and a word without dots or slashes is again a plain stem. */
  lemma PlainStemExtended(stem: string, ext: string)
    requires IsPlainStem(stem) && IsSimpleExtension(ext)
    ensures IsPlainStem(stem + ext)
  {
    var root := stem + ext;
    assert root[0] == stem[0];
    forall j | 0 <= j < |root| ensures root[j] != '/' {
      if j >= |stem| { assert root[j] == ext[j - |stem|]; }
    }
  }

  /** Only the last suffix counts: `<stem>.tar.png` is accepted. */
  lemma InnerSuffixIgnored(stem: string)
    requires IsPlainStem(stem)
    ensures ValidateImageFileExtension(stem + ".tar" + ".png") == Pass
  {
    PlainStemExtended(stem, ".tar");
    PlainNameVerdict(stem + ".tar", ".png");
  }

  /** Only the last suffix counts: `<stem>.png.exe` is rejected. */
  lemma LastSuffixCounts(stem: string)
    requires IsPlainStem(stem)
    ensures ValidateImageFileExtension(stem + ".png" + ".exe") == Fail(UnsupportedExtension(".exe"))
  {
    PlainStemExtended(stem, ".png");
    PlainNameVerdict(stem + ".png", ".exe");
  }

  /** `<stem>.png` is accepted. */
  lemma LowerCaseAccepted(stem: string)
    requires IsPlainStem(stem)
    ensures ValidateImageFileExtension(stem + ".png") == Pass
  {
    PlainNameVerdict(stem, ".png");
  }

  /**
   * The comparison is case-sensitive: since every allowed extension is
   * lower-case, an extension with a capital letter after its dot is rejected.
   */
  lemma CapitalExtensionRejected(stem: string, ext: string, j: nat)
    requires IsPlainStem(stem) && IsSimpleExtension(ext)
    requires 0 < j < |ext| && 'A' <= ext[j] <= 'Z'
    ensures ValidateImageFileExtension(stem + ext) == Fail(UnsupportedExtension(ext))
  {
    forall i | 0 <= i < |AllowedExtensions|
      ensures AllowedExtensions[i] != ext
    {
      AllowedExtensionShape(i);
      if j < |AllowedExtensions[i]| {
        assert AllowedExtensions[i][j] != ext[j];
      }
    }
    PlainNameVerdict(stem, ext);
  }

  /** The allowed extensions spelled in capitals. */
  const UpperCaseExtensions: seq<string> := [".JPG", ".JPEG", ".GIF", ".PNG"]

  /** `<stem>.PNG`, `<stem>.JPG` and the other capitalised allowed extensions are rejected. */
  lemma UpperCaseRejected(stem: string, i: nat)
    requires IsPlainStem(stem) && i < |UpperCaseExtensions|
    ensures ValidateImageFileExtension(stem + UpperCaseExtensions[i])
         == Fail(UnsupportedExtension(UpperCaseExtensions[i]))
  {
    var ext := UpperCaseExtensions[i];
    assert IsSimpleExtension(ext) && 'A' <= ext[1] <= 'Z' by {
      if i == 0 {} else if i == 1 {} else if i == 2 {} else {}
    }
    CapitalExtensionRejected(stem, ext, 1);
  }

  /**
   * A dot that begins the final component does not start an extension: a
   * name made of one leading dot and a word without dots has no extension
   * and is rejected.
   */
  lemma LeadingDotIsNoExtension(suffix: string)
    requires forall i :: 0 <= i < |suffix| ==> suffix[i] != '.' && suffix[i] != '/'
    ensures SplitExt(['.'] + suffix) == (['.'] + suffix, [])
    ensures ValidateImageFileExtension(['.'] + suffix) == Fail(UnsupportedExtension([]))
  {
    var p := ['.'] + suffix;
    LastIndexUnique(p, '/', -1);
    LastIndexUnique(p, '.', 0);
  }

  /** The hidden file `.png` is rejected: it has no extension at all. */
  lemma DotFileRejected()
    ensures ValidateImageFileExtension(".png") == Fail(UnsupportedExtension([]))
  {
    LeadingDotIsNoExtension("png");
    assert ['.'] + "png" == ".png";
  }
}
