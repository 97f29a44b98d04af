/** `splitExtension` of src/lib/utils.ts: split a file name at its last '.'
    into the part before it (`name`) and the part after it (`extension`),
    as `lastIndexOf` and `slice` compute it over Dafny characters. */
module FileName {
  import opened JsString

  datatype Split = Split(name: string, extension: string)

  /** The split the source computes. The `?? ""` fallback of the source is
      absent because `slice` always returns a string. When the name has a
      '.', the two parts rebuild it around that '.' and the extension has no
      '.'. When it has none, `lastIndexOf` gives -1, so the extension is the
      whole name and `slice(0, -1)` drops the name's last code unit. */
  function SplitExtension(filename: string): (r: Split)
    ensures '.' in filename ==> r.name + "." + r.extension == filename && '.' !in r.extension
    ensures '.' !in filename ==> r.extension == filename
    ensures '.' !in filename ==> r.name == if filename == "" then "" else filename[..|filename| - 1]
  {
    var lastDotIndex := LastIndexOf(filename, '.');
    var name := Slice(filename, 0, lastDotIndex);
    var extension := SliceFrom(filename, lastDotIndex + 1);
    if lastDotIndex == -1 then
      if filename == "" then Split(name, extension)
      else
        SliceNegativeEnd(filename, 1);
        Split(name, extension)
    else
      SliceWithin(filename, 0, lastDotIndex);
      assert filename == filename[..lastDotIndex] + [filename[lastDotIndex]] + filename[lastDotIndex + 1..];
      Split(name, extension)
  }

  /** A '.' with no '.' after it is the one `lastIndexOf` finds. */
  lemma LastDotAt(s: string, k: nat)
    requires k < |s| && s[k] == '.' && '.' !in s[k + 1..]
    ensures LastIndexOf(s, '.') == k
  {
    forall j | k < j < |s| ensures s[j] != '.' {
      assert s[j] == s[k + 1..][j - k - 1];
    }
  }

  /** The split of a dotted name is the ONLY way to write it as
      `name + "." + extension` with a dot-free extension: `name` is everything
      before the last '.', `extension` everything after it. */
  lemma SplitAtLastDot(filename: string, name: string, extension: string)
    requires name + "." + extension == filename
    requires '.' !in extension
    ensures SplitExtension(filename) == Split(name, extension)
  {
    var k := |name|;
    assert filename[k] == '.';
    assert filename[k + 1..] == extension;
    LastDotAt(filename, k);
    SliceWithin(filename, 0, k);
    assert filename[..k] == name;
  }

  /** A name ending in '.' has an empty extension and keeps the rest as `name`. */
  lemma TrailingDot(stem: string)
    ensures SplitExtension(stem + ".") == Split(stem, "")
  {
    SplitAtLastDot(stem + ".", stem, "");
  }

  /** A name whose only '.' is its first character (".png") has an empty
      `name` and the rest as its extension. */
  lemma LeadingOnlyDot(extension: string)
    requires '.' !in extension
    ensures SplitExtension("." + extension) == Split("", extension)
  {
    SplitAtLastDot("." + extension, "", extension);
  }

  /** Only the last '.' splits: an earlier '.' stays in `name`. */
  lemma InnerDotStaysInName(first: string, second: string, extension: string)
    requires '.' !in extension
    ensures SplitExtension(first + "." + second + "." + extension) == Split(first + "." + second, extension)
  {
    SplitAtLastDot(first + "." + second + "." + extension, first + "." + second, extension);
  }

  /** The empty name splits into two empty parts. */
  lemma EmptyFileName()
    ensures SplitExtension("") == Split("", "")
  {
  }

  /** Examples: the output name of the source's own comment and a double
      extension. */
  lemma DottedExamples()
    ensures SplitExtension("output.jpg") == Split("output", "jpg")
    ensures SplitExtension("archive.tar.gz") == Split("archive.tar", "gz")
  {
    assert "output" + "." + "jpg" == "output.jpg";
    SplitAtLastDot("output.jpg", "output", "jpg");
    assert "archive.tar" + "." + "gz" == "archive.tar.gz";
    SplitAtLastDot("archive.tar.gz", "archive.tar", "gz");
  }

  /** Example: a name without any '.' loses its last character as `name`
      and is its own `extension`. */
  lemma DotlessExample()
    ensures SplitExtension("README") == Split("READM", "README")
  {
    assert '.' !in "README";
    assert "README"[..5] == "READM";
  }
}
