/** From stream keys to playlist URLs (Create in services/api/internal/live/service.go) and back to
    segment directories (segmentDir in services/api/internal/live/dvr.go). */
module SegmentPaths {
  import opened Strings

  const PLAYLIST := "/index.m3u8"

  /** The configured base URL of the playlists: scheme, "://", host, and a path that is empty or starts
      with a slash; and the directory the segments are written under. */
  datatype Config = Config(scheme: string, host: string, path: string, hlsDirectory: string)

  predicate ValidConfig(c: Config) {
    && ':' !in c.scheme
    && '/' !in c.host
    && (c.path == "" || c.path[0] == '/')
  }

  function BaseURL(c: Config): string {
    c.scheme + (":" + ("//" + (c.host + c.path)))
  }

  // Generated keys are hexadecimal; what matters is that a key is one ordinary component of a path.
  predicate Key(k: string) {
    k != "" && k != "." && k != ".." && '/' !in k
  }

  /** The playlist URL that Create stores: base/key/index.m3u8. */
  function PlaylistURL(c: Config, key: string): string {
    BaseURL(c) + "/" + key + PLAYLIST
  }

  /** The path of a URL of the form scheme://host/path. */
  function PathOf(url: string): string {
    var rest := url[IndexOf(url, ':')..];
    if "://" <= rest then
      var authority := rest[3..];
      authority[IndexOf(authority, '/')..]
    else ""
  }

  function SegmentDir(c: Config, url: string): string {
    if url == "" then "" else
    var streamPath := TrimPrefix(TrimSuffix(PathOf(url), PLAYLIST), "/");
    c.hlsDirectory + "/" + streamPath
  }

  // ---------- Printing, then parsing ----------

  lemma PathOfPrinted(scheme: string, host: string, path: string)
    requires ':' !in scheme && '/' !in host && path != "" && path[0] == '/'
    ensures PathOf(scheme + (":" + ("//" + (host + path)))) == path
  {
    var after := "//" + (host + path);
    var url := scheme + (":" + after);
    IndexOfFirst(scheme, ':', after);
    assert [':'] == ":";
    var rest := url[|scheme|..];
    assert rest == ":" + after;
    assert "://" <= rest && rest[3..] == host + path;
    assert path == ['/'] + path[1..];
    IndexOfFirst(host, '/', path[1..]);
    assert (host + path)[|host|..] == path;
  }

  lemma TrimAppended(s: string, suffix: string)
    ensures TrimSuffix(s + suffix, suffix) == s
  {
    assert (s + suffix)[|s|..] == suffix;
  }

  lemma URLText(c: Config, key: string)
    ensures PlaylistURL(c, key) == c.scheme + (":" + ("//" + (c.host + (c.path + "/" + key + PLAYLIST))))
  {
    Regroup(c.scheme, ":", "//", c.host, c.path, "/" + key + PLAYLIST);
    Regroup3(BaseURL(c), "/", key, PLAYLIST);
    Regroup3(c.path, "/", key, PLAYLIST);
  }

  lemma Regroup(u: string, v: string, w: string, x: string, y: string, z: string)
    ensures u + (v + (w + (x + y))) + z == u + (v + (w + (x + (y + z))))
  {
  }

  lemma Regroup3(w: string, x: string, y: string, z: string)
    ensures w + x + y + z == w + (x + y + z)
  {
  }

  // Where the directories of a configuration live; each is this followed by its key.
  function Root(c: Config): string {
    c.hlsDirectory + "/" + (c.path + "/")[1..]
  }

  lemma RootThenKey(c: Config, key: string)
    requires ValidConfig(c)
    ensures "/" <= c.path + "/" + key
    ensures c.hlsDirectory + "/" + TrimPrefix(c.path + "/" + key, "/") == Root(c) + key
  {
    assert (c.path + "/" + key)[1..] == (c.path + "/")[1..] + key;
  }

  /** The directory derived from the URL that Create stores is the key inside a fixed directory. */
  lemma SegmentDirOfKey(c: Config, key: string)
    requires ValidConfig(c)
    ensures SegmentDir(c, PlaylistURL(c, key)) == Root(c) + key
  {
    var dir := c.path + "/" + key;
    URLText(c, key);
    PathOfPrinted(c.scheme, c.host, dir + PLAYLIST);
    TrimAppended(dir, PLAYLIST);
    RootThenKey(c, key);
  }

  // ---------- Directories do not overlap ----------

  // What removing a directory removes.
  predicate Within(file: string, dir: string) {
    file == dir || dir + "/" <= file
  }

  /** Distinct keys give distinct directories, neither inside the other: no file is within both. */
  lemma DirectoriesDisjoint(root: string, k1: string, k2: string, file: string)
    requires Key(k1) && Key(k2)
    requires Within(file, root + k1) && Within(file, root + k2)
    ensures k1 == k2
  {
    var rest := file[|root|..];
    LastComponent(root, k1, file);
    LastComponent(root, k2, file);
  }

  lemma LastComponent(root: string, k: string, file: string)
    requires Key(k) && Within(file, root + k)
    ensures |root| <= |file| && k == file[|root|..][..IndexOf(file[|root|..], '/')]
  {
    var rest := file[|root|..];
    if file == root + k {
      assert rest == k;
    } else {
      assert rest == k + (['/'] + rest[|k| + 1..]) by {
        assert (root + k + "/")[|root|..] == k + "/";
        assert file == (root + k + "/") + file[|root| + |k| + 1..];
      }
      IndexOfFirst(k, '/', rest[|k| + 1..]);
    }
  }

  /** Removing a stream's directory never reaches the directory that holds all of them. */
  lemma RootSurvives(c: Config, key: string)
    requires ValidConfig(c) && Key(key)
    ensures !Within(c.hlsDirectory, SegmentDir(c, PlaylistURL(c, key)))
  {
    SegmentDirOfKey(c, key);
  }
}
