/**
 * The output file name `save_markdown` derives for a URL: the network location,
 * an underscore, the path with every "/" replaced by "_", and ".md" unless the
 * name already ends in ".md".
 */
module Filename {
  import opened PyStr

  const Extension: string := ".md"

  /** `netloc + "_" + path.replace("/", "_")`. */
  function BaseName(netloc: string, path: string): (r: string)
    ensures |r| == |netloc| + 1 + |path|
    ensures r[..|netloc|] == netloc && r[|netloc|] == '_'
    ensures forall j :: 0 <= j < |path| ==>
              r[|netloc| + 1 + j] == if path[j] == '/' then '_' else path[j]
  {
    netloc + "_" + Replace(path, '/', '_')
  }

  /** Appends ".md" unless the name already ends in it. */
  function WithExtension(name: string): (r: string)
    ensures EndsWith(r, Extension)
    ensures EndsWith(name, Extension) ==> r == name
    ensures !EndsWith(name, Extension) ==> r == name + Extension
  {
    if EndsWith(name, Extension) then name else name + Extension
  }

  /**
   * The file name used for a URL whose network location and path are given.
   * It always ends in ".md", starts with the network location and an
   * underscore, continues with the path with "/" turned into "_", and has
   * ".md" appended exactly when that base name did not already end in it.
   */
  function Derive(netloc: string, path: string): (r: string)
    ensures |r| == |netloc| + 1 + |path| + (if EndsWith(BaseName(netloc, path), Extension) then 0 else |Extension|)
    ensures EndsWith(r, Extension)
    ensures r[..|netloc|] == netloc && r[|netloc|] == '_'
    ensures forall j :: 0 <= j < |path| ==> r[|netloc| + 1 + j] == if path[j] == '/' then '_' else path[j]
  {
    var b := BaseName(netloc, path);
    var r := WithExtension(b);
    assert r[..|b|] == b;
    assert r[..|netloc|] == b[..|netloc|];
    r
  }

  /** When the network location holds no "/", the derived name holds none either. */
  lemma DeriveHasNoSlash(netloc: string, path: string)
    requires '/' !in netloc
    ensures '/' !in Derive(netloc, path)
  {
    var b := BaseName(netloc, path);
    var r := Derive(netloc, path);
    forall i | 0 <= i < |b|
      ensures b[i] != '/'
    {
      if i < |netloc| {
        assert b[i] == b[..|netloc|][i] == netloc[i];
      } else if i > |netloc| {
        assert b[i] == b[|netloc| + 1 + (i - |netloc| - 1)];
      }
    }
    assert Extension == ['.', 'm', 'd'];
    forall i | 0 <= i < |r|
      ensures r[i] != '/'
    {
      if i < |b| {
        assert r[i] == r[..|b|][i] == b[i];
      }
    }
  }

  /** Applying the ".md" step to a derived name changes nothing. */
  lemma WithExtensionIdempotent(name: string)
    ensures WithExtension(WithExtension(name)) == WithExtension(name)
  {
  }

  /** A URL path starts with "/", so the derived name has two underscores after the network location. */
  lemma DoubleUnderscore(netloc: string, path: string)
    requires path != [] && path[0] == '/'
    ensures |Derive(netloc, path)| > |netloc| + 1
    ensures Derive(netloc, path)[|netloc|] == '_' && Derive(netloc, path)[|netloc| + 1] == '_'
  {
    var b := BaseName(netloc, path);
    var r := WithExtension(b);
    assert b[|netloc| + 1 + 0] == '_';
    assert r[|netloc|] == r[..|b|][|netloc|] == '_';
    assert r[|netloc| + 1] == r[..|b|][|netloc| + 1] == '_';
  }

  /** "http://a.com/x" is saved as "a.com__x.md". */
  lemma DeriveExample()
    ensures Derive("a.com", "/x") == "a.com__x.md"
  {
    assert Replace("/x", '/', '_') == "_x";
  }

  /** A URL with no path ("http://a.com") gives a single underscore after the host. */
  lemma DeriveEmptyPath()
    ensures Derive("a.com", "") == "a.com_.md"
  {
    assert Replace("", '/', '_') == "";
  }

  /** A path that already ends in ".md" gets no second extension. */
  lemma DeriveKeepsMarkdownExtension()
    ensures Derive("a.com", "/r.md") == "a.com__r.md"
  {
    assert Replace("/r.md", '/', '_') == "_r.md";
    assert BaseName("a.com", "/r.md") == "a.com__r.md";
    assert EndsWith("a.com__r.md", Extension);
  }

  /** Distinct paths can collide: "/a/b" and "/a_b" give the same name. */
  lemma DeriveCollision()
    ensures Derive("a.com", "/a/b") == Derive("a.com", "/a_b") == "a.com__a_b.md"
  {
    SlashedName();
    UnderscoredName();
  }

  lemma SlashedName()
    ensures Derive("a.com", "/a/b") == "a.com__a_b.md"
  {
    assert Replace("/a/b", '/', '_') == "_a_b";
    DeriveFromBase("a.com", "/a/b", "a.com__a_b");
    assert !EndsWith("a.com__a_b", Extension);
  }

  lemma UnderscoredName()
    ensures Derive("a.com", "/a_b") == "a.com__a_b.md"
  {
    assert Replace("/a_b", '/', '_') == "_a_b";
    DeriveFromBase("a.com", "/a_b", "a.com__a_b");
    assert !EndsWith("a.com__a_b", Extension);
  }

  lemma DeriveFromBase(netloc: string, path: string, base: string)
    requires netloc + "_" + Replace(path, '/', '_') == base
    ensures Derive(netloc, path) == WithExtension(base)
  {
  }
}
