/** The disk storage of the photo upload middleware: every upload goes to `./uploads`
    under a fresh id followed by the extension of the client's file name. */
module Upload {

  /** The directory handed to multer's `destination` callback. */
  const Destination := "./uploads"

  /** `s.split(sep)`: the pieces between the separators, in order (an empty string gives
      one empty piece).  Defined from the right end of `s`. */
  function Split(s: string, sep: char): (parts: seq<string>)
    ensures |parts| >= 1
    ensures forall i :: 0 <= i < |parts| ==> sep !in parts[i]
    decreases |s|
  {
    if s == [] then [[]]
    else
      var init := Split(s[..|s| - 1], sep);
      var c := s[|s| - 1];
      if c == sep then init + [[]]
      else init[..|init| - 1] + [init[|init| - 1] + [c]]
  }

  /** `parts.join(sep)`. */
  function Join(parts: seq<string>, sep: char): string
    requires |parts| >= 1
    decreases |parts|
  {
    if |parts| == 1 then parts[0]
    else Join(parts[..|parts| - 1], sep) + [sep] + parts[|parts| - 1]
  }

  /** Splitting loses nothing: joining the pieces with the separator gives `s` back. */
  lemma {:induction false} JoinSplit(s: string, sep: char)
    ensures Join(Split(s, sep), sep) == s
    decreases |s|
  {
    if s != [] {
      var s', c := s[..|s| - 1], s[|s| - 1];
      assert s == s' + [c];
      var p := Split(s', sep);
      JoinSplit(s', sep);
      if c == sep {
        assert (p + [[]])[..|p|] == p;
      } else {
        var k := |p| - 1;
        var q := p[..k] + [p[k] + [c]];
        if k > 0 {
          assert q[..k] == p[..k];
          assert p[..k] == p[..|p| - 1];
        }
      }
    }
  }

  /** `file.originalname.split('.').pop()`: the last piece of the name. */
  function Extension(name: string): string
  {
    var parts := Split(name, '.');
    parts[|parts| - 1]
  }

  /** The extension is the longest suffix of the name without a dot: it is a suffix, has
      no dot, and when it is not the whole name the character before it is the last dot. */
  lemma {:induction false} ExtensionIsAfterLastDot(name: string)
    ensures |Extension(name)| <= |name|
    ensures name[|name| - |Extension(name)|..] == Extension(name)
    ensures '.' !in Extension(name)
    ensures |Extension(name)| < |name| ==> name[|name| - |Extension(name)| - 1] == '.'
    decreases |name|
  {
    if name != [] {
      var s', c := name[..|name| - 1], name[|name| - 1];
      ExtensionIsAfterLastDot(s');
      var e', e := Extension(s'), Extension(name);
      if c != '.' {
        assert e == e' + [c];
        assert name == s' + [c];
        assert name[|name| - |e|..] == s'[|s'| - |e'|..] + [c];
        if |e| < |name| {
          assert name[|name| - |e| - 1] == s'[|s'| - |e'| - 1];
        }
      }
    }
  }

  /** A name without a dot is its own extension. */
  lemma NoDotWholeName(name: string)
    requires '.' !in name
    ensures Extension(name) == name
  {
    ExtensionIsAfterLastDot(name);
  }

  /** A name ending in a dot has an empty extension. */
  lemma TrailingDotEmptyExtension(name: string)
    requires |name| > 0 && name[|name| - 1] == '.'
    ensures Extension(name) == []
  {
    ExtensionIsAfterLastDot(name);
  }

  /** The name the file is stored under: `${id}.${extName}`. */
  function StoredFileName(id: string, originalName: string): (r: string)
    ensures |r| > |id| && r[..|id|] == id && r[|id|] == '.'
  {
    id + "." + Extension(originalName)
  }

  /** Whatever comes before a final dot-free piece, the extension is that piece. */
  lemma {:induction false} ExtensionOfDottedName(prefix: string, ext: string)
    requires '.' !in ext
    ensures Extension(prefix + "." + ext) == ext
    decreases |ext|
  {
    var s := prefix + "." + ext;
    if ext != [] {
      var ext', c := ext[..|ext| - 1], ext[|ext| - 1];
      assert ext == ext' + [c];
      ExtensionOfDottedName(prefix, ext');
      assert s[..|s| - 1] == prefix + "." + ext';
    } else {
      assert s[|s| - 1] == '.';
    }
  }

  /** The stored file keeps the upload's extension; an original name ending in a dot
      gives a stored name that is the id and a dot. */
  lemma StoredFileKeepsExtension(id: string, originalName: string)
    ensures Extension(StoredFileName(id, originalName)) == Extension(originalName)
    ensures |originalName| > 0 && originalName[|originalName| - 1] == '.' ==>
              StoredFileName(id, originalName) == id + "."
  {
    ExtensionIsAfterLastDot(originalName);
    ExtensionOfDottedName(id, Extension(originalName));
    if |originalName| > 0 && originalName[|originalName| - 1] == '.' {
      TrailingDotEmptyExtension(originalName);
    }
  }
}
