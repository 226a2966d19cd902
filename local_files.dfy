/**
 * Where a downloaded preview is kept on the device, and whether it is
 * already there. The Documents directory is a parameter; the file system is
 * the set of paths at which an entry exists.
 */
module LocalFiles {
  import opened Optional
  import opened SearchResults

  /** Characters that stop a string from being accepted as a URL. */
  predicate IsIllegalUrlChar(c: char) {
    c < ' ' || c == ' ' || c == '"' || c == '<' || c == '>' || c == '\\' ||
    c == '^' || c == '`' || c == '{' || c == '|' || c == '}' || c == '\U{7F}'
  }

  /** A string the URL parser accepts: non-empty, with no illegal character. */
  predicate ValidUrl(s: string): (b: bool)
    ensures b ==> s != [] && ' ' !in s
  {
    s != [] && forall i :: 0 <= i < |s| ==> !IsIllegalUrlChar(s[i])
  }

  /** The URL without its query and fragment: everything before the first `?` or `#`. */
  function BeforeQuery(s: string): (r: string)
    ensures r <= s
    ensures '?' !in r && '#' !in r
    ensures |r| < |s| ==> s[|r|] == '?' || s[|r|] == '#'
  {
    if s == [] then []
    else if s[0] == '?' || s[0] == '#' then []
    else [s[0]] + BeforeQuery(s[1..])
  }

  /** The longest suffix of `s` without a `/`: all of `s`, or what follows its last `/`. */
  function AfterLastSlash(s: string): (r: string)
    ensures '/' !in r
    ensures |r| <= |s| && r == s[|s| - |r|..]
    ensures |r| < |s| ==> s[|s| - |r| - 1] == '/'
  {
    if s == [] then []
    else if s[|s| - 1] == '/' then []
    else AfterLastSlash(s[..|s| - 1]) + [s[|s| - 1]]
  }

  /**
   * The URL's last path component (its file name and extension), or `None`
   * when the path has no `/` or ends in one.
   */
  function LastPathComponent(url: string): (r: Option<string>)
    ensures r.Some? ==> r.value != [] && '/' !in r.value
    ensures r.Some? ==> r.value == AfterLastSlash(BeforeQuery(url))
    ensures r.Some? <==> '/' in BeforeQuery(url) && AfterLastSlash(BeforeQuery(url)) != []
  {
    var path := BeforeQuery(url);
    var name := AfterLastSlash(path);
    if name == [] || |name| == |path| then None else Some(name)
  }

  /** Appending a component to a directory path, inserting a `/` when one is needed. */
  function AppendPathComponent(dir: string, name: string): (r: string)
    ensures dir <= r
    ensures r == dir + name || r == dir + "/" + name
    ensures |r| >= |name| && r[|r| - |name|..] == name
  {
    if dir == [] then name
    else if dir[|dir| - 1] == '/' then dir + name
    else dir + "/" + name
  }

  /**
   * The permanent local path for a preview URL: the Documents directory with
   * the URL's last path component appended; `None` exactly when the string is
   * not a URL or has no last path component.
   */
  function LocalFilePathForUrl(documents: string, previewUrl: string): (r: Option<string>)
    ensures r.None? <==> !ValidUrl(previewUrl) || LastPathComponent(previewUrl).None?
    ensures r.Some? ==> r.value == AppendPathComponent(documents, LastPathComponent(previewUrl).value)
    ensures r.Some? ==> documents <= r.value
    ensures r.Some? ==> AfterLastSlash(r.value) == LastPathComponent(previewUrl).value
  {
    if ValidUrl(previewUrl) && LastPathComponent(previewUrl).Some? then
      var name := LastPathComponent(previewUrl).value;
      AfterLastSlashOfAppended(documents, name);
      Some(AppendPathComponent(documents, name))
    else None
  }

  /** A path built by appending a plain file name ends in exactly that name. */
  lemma {:induction false} AfterLastSlashOfAppended(dir: string, name: string)
    requires name != [] && '/' !in name
    ensures AfterLastSlash(AppendPathComponent(dir, name)) == name
  {
    if dir == [] {
      AfterLastSlashAfterSeparator([], name);
    } else if dir[|dir| - 1] == '/' {
      AfterLastSlashAfterSeparator(dir, name);
    } else {
      assert dir + "/" + name == (dir + "/") + name;
      AfterLastSlashAfterSeparator(dir + "/", name);
    }
  }

  /** What follows a separator (or the start) and holds no `/` is the last component. */
  lemma {:induction false} AfterLastSlashAfterSeparator(prefix: string, name: string)
    requires prefix == [] || prefix[|prefix| - 1] == '/'
    requires '/' !in name
    ensures AfterLastSlash(prefix + name) == name
  {
    if name == [] {
      assert prefix + name == prefix;
    } else {
      var init := name[..|name| - 1];
      assert (prefix + name)[..|prefix + name| - 1] == prefix + init;
      AfterLastSlashAfterSeparator(prefix, init);
      assert init + [name[|name| - 1]] == name;
    }
  }

  /** Appending to the same directory is injective in the file name. */
  lemma AppendInjective(dir: string, a: string, b: string)
    requires AppendPathComponent(dir, a) == AppendPathComponent(dir, b)
    ensures a == b
  {
  }

  /**
   * For two URLs that both have a local path, the paths are equal exactly
   * when the file names are: the path depends on the file name alone.
   */
  lemma LocalPathDependsOnlyOnFileName(documents: string, u1: string, u2: string)
    requires LocalFilePathForUrl(documents, u1).Some? && LocalFilePathForUrl(documents, u2).Some?
    ensures LocalFilePathForUrl(documents, u1) == LocalFilePathForUrl(documents, u2) <==>
            LastPathComponent(u1) == LastPathComponent(u2)
  {
    if LocalFilePathForUrl(documents, u1) == LocalFilePathForUrl(documents, u2) {
      AppendInjective(documents, LastPathComponent(u1).value, LastPathComponent(u2).value);
    }
  }

  /**
   * Whether the track's preview is already on the device: false without a
   * preview URL or a local path, otherwise whether an entry exists there.
   */
  function LocalFileExistsForTrack(documents: string, existing: set<string>, track: Track): (r: bool)
    ensures track.previewUrl.None? ==> !r
    ensures track.previewUrl.Some? && LocalFilePathForUrl(documents, track.previewUrl.value).None? ==> !r
    ensures r <==> track.previewUrl.Some? && LocalFilePathForUrl(documents, track.previewUrl.value).Some? &&
                   LocalFilePathForUrl(documents, track.previewUrl.value).value in existing
  {
    if track.previewUrl.Some? && LocalFilePathForUrl(documents, track.previewUrl.value).Some? then
      LocalFilePathForUrl(documents, track.previewUrl.value).value in existing
    else false
  }

  /** Two tracks whose URLs name the same file are downloaded or not together. */
  lemma DownloadedDependsOnlyOnFileName(documents: string, existing: set<string>, t1: Track, t2: Track)
    requires t1.previewUrl.Some? && ValidUrl(t1.previewUrl.value)
    requires t2.previewUrl.Some? && ValidUrl(t2.previewUrl.value)
    requires LastPathComponent(t1.previewUrl.value) == LastPathComponent(t2.previewUrl.value)
    ensures LocalFileExistsForTrack(documents, existing, t1) == LocalFileExistsForTrack(documents, existing, t2)
  {
  }
}
