/** The in-memory state of the credential store of config/credentials_config.py: cookies,
    local and session storage, the JWT user token and the project root. Disk reads and
    writes are parameters: the result of reading credentials.json, whether the config
    directory can be made and whether a write succeeded. Whether credentials.json exists at
    the root's path is a field, refreshed whenever the store looks at the disk. The object
    invariant is that the JWT token is always the cookie "JWTUserToken" (or None when that
    cookie is absent), and that there is no file where there is no path. */
module CredentialsConfig {
  import opened Values

  const JwtCookie: string := "JWTUserToken"

  /** The result of reading and parsing a JSON file. */
  datatype FileRead<T> = Missing | Malformed | Parsed(data: T)

  /** The entries of credentials.json; an absent entry is None. */
  datatype CredentialsFile = CredentialsFile(
    cookies: Option<map<string, string>>,
    localStorage: Option<map<string, Json>>,
    sessionStorage: Option<map<string, Json>>)

  /** `dict.update`: every new key takes its new value, every other key keeps its old one. */
  function MergeCookies(current: map<string, string>, incoming: map<string, string>): (merged: map<string, string>)
    ensures merged.Keys == current.Keys + incoming.Keys
    ensures forall k :: k in incoming ==> merged[k] == incoming[k]
    ensures forall k :: k in current && k !in incoming ==> merged[k] == current[k]
  {
    current + incoming
  }

  class Credentials {
    var cookies: map<string, string>
    var localStorage: map<string, Json>
    var sessionStorage: map<string, Json>
    var jwtUserToken: Option<string>
    var projectRootDir: Option<string>
    /** Whether credentials.json exists at the path the root gives; false without a path.
        `os.makedirs(config_dir, exist_ok=True)` raises only when the config path is not a
        directory, so a path lookup that raises also shows that there is no file. */
    var fileOnDisk: bool

    ghost predicate Valid()
      reads this
    {
      && jwtUserToken == Get(cookies, JwtCookie)
      && (!HasFilePath() ==> !fileOnDisk)
    }

    constructor ()
      ensures Valid()
      ensures cookies == map[] && localStorage == map[] && sessionStorage == map[]
      ensures jwtUserToken == None && projectRootDir == None && !fileOnDisk
    {
      cookies := map[];
      localStorage := map[];
      sessionStorage := map[];
      jwtUserToken := None;
      projectRootDir := None;
      fileOnDisk := false;
    }

    /** `_get_credentials_file_path` gives a path only when the root is set and non-empty.
        Before it does, it creates the config directory; the methods below take whether that
        succeeds as `dirReady`, and when it fails the exception leaves them before they touch
        memory. */
    predicate HasFilePath()
      reads this
    {
      projectRootDir.Some? && projectRootDir.value != ""
    }

    /** Whether looking up the file path raises because the config directory cannot be made. */
    predicate PathRaises(dirReady: bool)
      reads this
    {
      HasFilePath() && !dirReady
    }

    method UpdateCookies(newCookies: map<string, string>)
      requires Valid()
      modifies this
      ensures cookies == MergeCookies(old(cookies), newCookies)
      ensures jwtUserToken == Get(cookies, JwtCookie)
      ensures Valid()
      ensures localStorage == old(localStorage) && sessionStorage == old(sessionStorage)
      ensures projectRootDir == old(projectRootDir) && fileOnDisk == old(fileOnDisk)
    {
      cookies := cookies + newCookies;
      jwtUserToken := Get(cookies, JwtCookie);
    }

    method ClearCredentials()
      requires Valid()
      modifies this
      ensures Valid()
      ensures cookies == map[] && localStorage == map[] && sessionStorage == map[] && jwtUserToken == None
      ensures projectRootDir == old(projectRootDir) && fileOnDisk == old(fileOnDisk)
    {
      cookies := map[];
      localStorage := map[];
      sessionStorage := map[];
      jwtUserToken := None;
    }

    /** A parsed file replaces cookies and both storages (absent entries become empty) and
        re-derives the token; no path, no file or a parse error changes nothing in memory.
        With a path, the read also tells whether the file is there. When the config directory
        cannot be made the call raises, leaves memory alone and records that there is no file. */
    method LoadCredentialsFromFile(read: FileRead<CredentialsFile>, dirReady: bool) returns (raised: bool)
      requires Valid()
      modifies this
      ensures Valid()
      ensures raised == old(PathRaises(dirReady))
      ensures projectRootDir == old(projectRootDir)
      ensures fileOnDisk == (HasFilePath() && dirReady && !read.Missing?)
      ensures HasFilePath() && dirReady && read.Parsed? ==>
        && cookies == read.data.cookies.GetOr(map[])
        && localStorage == read.data.localStorage.GetOr(map[])
        && sessionStorage == read.data.sessionStorage.GetOr(map[])
        && jwtUserToken == Get(cookies, JwtCookie)
      ensures !(HasFilePath() && dirReady && read.Parsed?) ==>
        && cookies == old(cookies) && localStorage == old(localStorage)
        && sessionStorage == old(sessionStorage) && jwtUserToken == old(jwtUserToken)
    {
      raised := PathRaises(dirReady);
      if !HasFilePath() {
        return;
      }
      fileOnDisk := dirReady && !read.Missing?;
      if raised {
        return;
      }
      match read {
        case Missing =>
        case Malformed =>
        case Parsed(data) =>
          cookies := data.cookies.GetOr(map[]);
          localStorage := data.localStorage.GetOr(map[]);
          sessionStorage := data.sessionStorage.GetOr(map[]);
          jwtUserToken := Get(cookies, JwtCookie);
      }
    }

    /** A successful write creates or overwrites the file, merges the saved cookies into
        memory and replaces both storages; no path or a failed write leaves memory as it was,
        and so does a config directory that cannot be made, which raises and shows that there
        is no file. */
    method SaveCredentialsToFile(credentials: CredentialsFile, dirReady: bool, writeSucceeds: bool)
      returns (raised: bool)
      requires Valid()
      modifies this
      ensures Valid()
      ensures raised == old(PathRaises(dirReady))
      ensures projectRootDir == old(projectRootDir)
      ensures fileOnDisk == if PathRaises(dirReady) then false else old(fileOnDisk) || (HasFilePath() && writeSucceeds)
      ensures HasFilePath() && dirReady && writeSucceeds ==>
        && cookies == MergeCookies(old(cookies), credentials.cookies.GetOr(map[]))
        && localStorage == credentials.localStorage.GetOr(map[])
        && sessionStorage == credentials.sessionStorage.GetOr(map[])
      ensures !(HasFilePath() && dirReady && writeSucceeds) ==>
        && cookies == old(cookies) && localStorage == old(localStorage)
        && sessionStorage == old(sessionStorage) && jwtUserToken == old(jwtUserToken)
    {
      raised := PathRaises(dirReady);
      if raised {
        fileOnDisk := false;
        return;
      }
      if !HasFilePath() || !writeSucceeds {
        return;
      }
      fileOnDisk := true;
      UpdateCookies(credentials.cookies.GetOr(map[]));
      localStorage := credentials.localStorage.GetOr(map[]);
      sessionStorage := credentials.sessionStorage.GetOr(map[]);
    }

    /** Sets the root and reloads, unless the root is already `path`, when nothing changes.
        A reload whose config directory cannot be made raises after the root is set. */
    method SetProjectRootDir(path: string, dirReady: bool, read: FileRead<CredentialsFile>)
      returns (raised: bool)
      requires Valid()
      modifies this
      ensures Valid()
      ensures projectRootDir == Some(path)
      ensures raised == (old(projectRootDir) != Some(path) && path != "" && !dirReady)
      ensures old(projectRootDir) == Some(path) ==>
        && cookies == old(cookies) && localStorage == old(localStorage)
        && sessionStorage == old(sessionStorage) && jwtUserToken == old(jwtUserToken)
        && fileOnDisk == old(fileOnDisk)
      ensures old(projectRootDir) != Some(path) ==>
        fileOnDisk == (path != "" && dirReady && !read.Missing?)
      ensures old(projectRootDir) != Some(path) && path != "" && dirReady && read.Parsed? ==>
        && cookies == read.data.cookies.GetOr(map[])
        && localStorage == read.data.localStorage.GetOr(map[])
        && sessionStorage == read.data.sessionStorage.GetOr(map[])
      ensures old(projectRootDir) != Some(path) && !(path != "" && dirReady && read.Parsed?) ==>
        && cookies == old(cookies) && localStorage == old(localStorage)
        && sessionStorage == old(sessionStorage) && jwtUserToken == old(jwtUserToken)
    {
      raised := false;
      if projectRootDir != Some(path) {
        projectRootDir := Some(path);
        fileOnDisk := false;  // nothing is known yet about the new path; the reload looks
        raised := LoadCredentialsFromFile(read, dirReady);
      }
    }

    /** Afterwards there is no file at the store's path: with a path it is removed if it was
        there; without one there is none. When the config directory cannot be made the call
        raises, and there is no file to remove. Memory is untouched in every case. */
    method DeleteCredentialsFile(dirReady: bool) returns (raised: bool)
      requires Valid()
      modifies this
      ensures Valid()
      ensures raised == old(PathRaises(dirReady))
      ensures !fileOnDisk
      ensures cookies == old(cookies) && localStorage == old(localStorage)
      ensures sessionStorage == old(sessionStorage) && jwtUserToken == old(jwtUserToken)
      ensures projectRootDir == old(projectRootDir)
    {
      raised := PathRaises(dirReady);
      if HasFilePath() && fileOnDisk {
        fileOnDisk := false;  // removed, or shown absent by the raising lookup
      }
    }
  }
}
