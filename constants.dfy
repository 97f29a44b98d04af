/** The two constant tables of src/lib/constants.ts: the output formats the
    converter offers and the MIME allow-list of the drop target. */
module Constants {

  /** `ImageOutputFormat`: the only output formats offered. */
  const ImageOutputFormat: seq<string> := ["png", "jpeg", "webp"]

  /** `ImageMimeTypes`: each accepted MIME type with the file extensions it
      stands for. */
  const ImageMimeTypes: map<string, seq<string>> := map[
    "image/png" := [".png"],
    "image/jpeg" := [".jpeg", ".jpg"],
    "image/webp" := [".webp"],
    "image/bmp" := [".bmp"],
    "image/ico" := [".ico"],
    "image/tiff" := [".tiff"],
    "image/gif" := [".gif"]
  ]

  /** Membership in the output-format list. */
  predicate IsOutputFormat(format: string) {
    format in ImageOutputFormat
  }

  /** A MIME type the drop target's allow-list names. */
  predicate IsAcceptedMimeType(mimeType: string) {
    mimeType in ImageMimeTypes
  }

  /** The allow-list pairs `mimeType` with `extension`. */
  predicate AcceptsExtension(mimeType: string, extension: string) {
    mimeType in ImageMimeTypes && extension in ImageMimeTypes[mimeType]
  }

  /** The output formats are exactly png, jpeg and webp, each listed once. */
  lemma OutputFormatsExactly()
    ensures forall f :: IsOutputFormat(f) <==> f == "png" || f == "jpeg" || f == "webp"
    ensures forall i, j :: 0 <= i < j < |ImageOutputFormat| ==> ImageOutputFormat[i] != ImageOutputFormat[j]
  {
  }

  /** No output format contains a '.', so it is a whole extension. */
  lemma OutputFormatsHaveNoDot()
    ensures forall f :: IsOutputFormat(f) ==> '.' !in f
  {
  }

  /** Every output format has its `image/<format>` type in the allow-list,
      and that type accepts the extension `.<format>`. */
  lemma OutputFormatsAreAccepted()
    ensures forall f :: IsOutputFormat(f) ==> IsAcceptedMimeType("image/" + f)
    ensures forall f :: IsOutputFormat(f) ==> AcceptsExtension("image/" + f, "." + f)
  {
    assert "image/" + "png" == "image/png";
    assert "image/" + "jpeg" == "image/jpeg";
    assert "image/" + "webp" == "image/webp";
    assert "." + "png" == ".png" && "." + "jpeg" == ".jpeg" && "." + "webp" == ".webp";
  }

  /** Every extension in the allow-list begins with '.'. */
  lemma ExtensionsStartWithDot()
    ensures forall m, e :: AcceptsExtension(m, e) ==> |e| > 1 && e[0] == '.'
  {
  }

  /** No extension is listed under two MIME types. */
  lemma ExtensionsHaveOneMimeType()
    ensures forall m1, m2, e :: AcceptsExtension(m1, e) && AcceptsExtension(m2, e) ==> m1 == m2
  {
  }

  /** `image/jpeg` accepts both `.jpeg` and `.jpg`, but there is no separate
      `image/jpg` entry. */
  lemma JpegAliases()
    ensures AcceptsExtension("image/jpeg", ".jpeg") && AcceptsExtension("image/jpeg", ".jpg")
    ensures !IsAcceptedMimeType("image/jpg")
  {
  }

  /** A PDF is not in the allow-list; a PNG is. */
  lemma AllowListExamples()
    ensures !IsAcceptedMimeType("application/pdf")
    ensures IsAcceptedMimeType("image/png")
  {
  }
}
