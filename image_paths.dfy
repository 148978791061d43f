/** The image path rules of the admin form. */
module ImagePaths {
  import opened Text

  const ImagesDir: string := "assets/images/"

  /** The path `onImageUrlChanged` keeps: the trimmed input, prefixed with
      `assets/images/` when it is non-empty and starts with neither `http` nor
      `assets/`. */
  function NormalisedImagePath(raw: string): (path: string)
    ensures path == Trim(raw) || path == ImagesDir + Trim(raw)
    ensures path != Trim(raw) <==>
      Trim(raw) != [] && !("http" <= Trim(raw)) && !("assets/" <= Trim(raw))
    ensures path == [] || "http" <= path || "assets/" <= path
  {
    var path := Trim(raw);
    if path != [] && !("http" <= path) && !("assets/" <= path) then
      assert (ImagesDir + path)[..7] == "assets/";
      ImagesDir + path
    else path
  }

  /** Normalising an already normalised path changes nothing. */
  lemma NormalisedIdempotent(raw: string)
    ensures NormalisedImagePath(NormalisedImagePath(raw)) == NormalisedImagePath(raw)
  {
    var t := Trim(raw);
    var p := NormalisedImagePath(raw);
    TrimSpec(raw);
    if p == t {
      TrimIdempotent(raw);
    } else {
      PrefixedIsTrimmed(t);
      TrimmedUnderAssetsIsNormal(p);
    }
  }

  /** Prefixing a trimmed, non-empty path with the images directory gives a
      trimmed path under `assets/`. */
  lemma PrefixedIsTrimmed(t: string)
    requires t != [] && !IsSpace(t[|t| - 1])
    ensures Trim(ImagesDir + t) == ImagesDir + t
    ensures "assets/" <= ImagesDir + t
  {
    var p := ImagesDir + t;
    assert p[0] == 'a' && p[|p| - 1] == t[|t| - 1];
    TrimOfTrimmed(p);
    UnderAssets(t);
  }

  lemma UnderAssets(t: string)
    ensures "assets/" <= ImagesDir + t
  {
    assert (ImagesDir + t)[..7] == "assets/";
  }

  lemma TrimmedUnderAssetsIsNormal(p: string)
    requires Trim(p) == p && "assets/" <= p
    ensures NormalisedImagePath(p) == p
  {
  }

  /** `path.split('/').pop() || ''`: the part after the last `/`, or all of
      `path` when it holds no `/`. */
  function FileName(path: string): (name: string)
    ensures '/' !in name && |name| <= |path| && path[|path| - |name|..] == name
    ensures |name| < |path| ==> path[|path| - |name| - 1] == '/'
  {
    var parts := Split(path, '/');
    SplitLast(path, '/');
    parts[|parts| - 1]
  }

  /** A plain file name placed under the images directory is shown as itself. */
  lemma FileNameUnderImagesDir(name: string)
    requires '/' !in name
    ensures FileName(ImagesDir + name) == name
  {
    var path := ImagesDir + name;
    var f := FileName(path);
    assert path[|ImagesDir| - 1] == '/';
    assert forall k :: |path| - |f| <= k < |path| ==> path[k] == f[k - (|path| - |f|)];
    assert forall k :: |ImagesDir| <= k < |path| ==> path[k] == name[k - |ImagesDir|];
    assert |f| == |name|;
    assert path[|path| - |name|..] == name;
  }

  /** `produit.images?.[0] || ''`: the first image, or the empty string. */
  function FirstImage(images: seq<string>): string {
    if |images| > 0 then images[0] else ""
  }
}
