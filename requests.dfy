/**
 * The DIRAC HTTP requests of `_dirac.py`, up to the POST itself: the
 * settings object whose `query_url` each request function overwrites,
 * the `clientSetup` default that `_set_defaults` adds for the development
 * server, and the parameters each request function sends.
 *
 * The POST is not performed: `Query` returns what would be posted. The
 * `args` parameter, a JSON list of strings in the source, is kept as the
 * list itself.
 */
module Requests {
  import opened Wrappers

  /** The host for which `_set_defaults` adds a `clientSetup` parameter. */
  const DEV_HOST: string := "diracdev.grid.hep.ph.ic.ac.uk"
  const CLIENT_SETUP: string := "clientSetup"
  const DEFAULT_SETUP: string := "GridPP"

  const JOB_MANAGER: string := "WorkloadManagement/JobManager"
  const JOB_MONITORING: string := "WorkloadManagement/JobMonitoring"
  const FILE_CATALOG: string := "DataManagement/FileCatalog"

  const DEFAULT_CAPATH: string := "/cvmfs/grid.cern.ch/etc/grid-security/certificates/"
  /** Seconds `_query` lets the POST take. */
  const TIMEOUT: nat := 60

  /** A form parameter: plain text, or the list of strings that `args` carries. */
  datatype Param = Text(text: string) | Args(items: seq<string>)

  type Params = map<string, Param>

  /** The `requests.post` call `_query` makes. */
  datatype Post = Post(url: string, data: Params, cert: string, verify: string, timeout: nat)

  /** `DiracSettings`: where to send requests and with which credentials. */
  class DiracSettings {
    var serverUrl: string
    var capath: string
    var userProxy: string
    var queryUrl: string

    constructor (serverUrl: string, capath: string := DEFAULT_CAPATH,
                 userProxy: string := "", queryUrl: string := "")
      ensures this.serverUrl == serverUrl && this.capath == capath
      ensures this.userProxy == userProxy && this.queryUrl == queryUrl
    {
      this.serverUrl := serverUrl;
      this.capath := capath;
      this.userProxy := userProxy;
      this.queryUrl := queryUrl;
    }
  }

  /** `sub` occurs in `s` starting at index `i`. */
  predicate OccursAt(s: string, sub: string, i: nat)
    requires i + |sub| <= |s|
  {
    s[i..i + |sub|] == sub
  }

  /**
   * Python's `sub in s` on strings: the empty string is in every string, a
   * longer string is in none, and a prefix is always found.
   */
  predicate Contains(s: string, sub: string): (b: bool)
    ensures sub == [] ==> b
    ensures b ==> |sub| <= |s|
    ensures |sub| <= |s| && s[..|sub|] == sub ==> b
  {
    assert |sub| <= |s| ==> OccursAt(s, sub, 0) == (s[..|sub|] == sub);
    exists i :: 0 <= i <= |s| - |sub| && OccursAt(s, sub, i)
  }

  /**
   * `_set_defaults`: for the development server, `clientSetup` is set to
   * its present value, or to "GridPP" when it has none; nothing else is
   * touched, and for any other server nothing at all.
   */
  function SetDefaults(queryUrl: string, params: Params): (r: Params)
    ensures r.Keys == if Contains(queryUrl, DEV_HOST) then params.Keys + {CLIENT_SETUP} else params.Keys
    ensures forall k :: k in params ==> r[k] == params[k]
    ensures Contains(queryUrl, DEV_HOST) && CLIENT_SETUP !in params ==> r[CLIENT_SETUP] == Text(DEFAULT_SETUP)
  {
    if Contains(queryUrl, DEV_HOST) then
      params[CLIENT_SETUP := if CLIENT_SETUP in params then params[CLIENT_SETUP] else Text(DEFAULT_SETUP)]
    else
      params
  }

  /** The parameters a request function builds: its method name and, if it has one, its argument list. */
  function Request(name: string, args: Option<seq<string>>): (r: Params)
    ensures r.Keys == if args.Some? then {"method", "args"} else {"method"}
    ensures r["method"] == Text(name)
    ensures args.Some? ==> r["args"] == Args(args.value)
  {
    match args
    case None => map["method" := Text(name)]
    case Some(a) => map["method" := Text(name), "args" := Args(a)]
  }

  /**
   * `_query`, up to the network: the parameters, defaulted for the current
   * `query_url`, are posted there with the user proxy as client
   * certificate, the CA directory for verification and a 60-second timeout.
   */
  method Query(settings: DiracSettings, params: Params) returns (post: Post)
    ensures post.url == settings.queryUrl
    ensures post.data == SetDefaults(settings.queryUrl, params)
    ensures post.cert == settings.userProxy && post.verify == settings.capath
    ensures post.timeout == TIMEOUT
  {
    var data := SetDefaults(settings.queryUrl, params);
    post := Post(settings.queryUrl, data, settings.userProxy, settings.capath, TIMEOUT);
  }

  /** `post` is the request for `method` with `args` that `_query` makes with `settings`. */
  ghost predicate Sends(post: Post, settings: DiracSettings, name: string, args: Option<seq<string>>)
    reads settings
  {
    && post.url == settings.queryUrl
    && post.data == SetDefaults(settings.queryUrl, Request(name, args))
    && post.cert == settings.userProxy && post.verify == settings.capath
    && post.timeout == TIMEOUT
  }

  /** Points `query_url` at `endpoint` of the server and queries it. */
  method Call(settings: DiracSettings, endpoint: string, name: string, args: Option<seq<string>>)
    returns (post: Post)
    modifies settings`queryUrl
    ensures settings.queryUrl == settings.serverUrl + "/" + endpoint
    ensures Sends(post, settings, name, args)
  {
    settings.queryUrl := settings.serverUrl + "/" + endpoint;
    post := Query(settings, Request(name, args));
  }

  /** `submit_job`: the job manager's `submitJob` with the JDL as its one argument. */
  method SubmitJob(settings: DiracSettings, jdl: string) returns (post: Post)
    modifies settings`queryUrl
    ensures settings.queryUrl == settings.serverUrl + "/" + JOB_MANAGER
    ensures Sends(post, settings, "submitJob", Some([jdl]))
  {
    post := Call(settings, JOB_MANAGER, "submitJob", Some([jdl]));
  }

  /** `get_jobs`: the job monitor's `getJobs`, without arguments. */
  method GetJobs(settings: DiracSettings) returns (post: Post)
    modifies settings`queryUrl
    ensures settings.queryUrl == settings.serverUrl + "/" + JOB_MONITORING
    ensures Sends(post, settings, "getJobs", None)
  {
    post := Call(settings, JOB_MONITORING, "getJobs", None);
  }

  /** `get_max_parametric_jobs`: the job manager's `getMaxParametricJobs`, without arguments. */
  method GetMaxParametricJobs(settings: DiracSettings) returns (post: Post)
    modifies settings`queryUrl
    ensures settings.queryUrl == settings.serverUrl + "/" + JOB_MANAGER
    ensures Sends(post, settings, "getMaxParametricJobs", None)
  {
    post := Call(settings, JOB_MANAGER, "getMaxParametricJobs", None);
  }

  /** `whoami`: the file catalog's `whoami`, without arguments. */
  method Whoami(settings: DiracSettings) returns (post: Post)
    modifies settings`queryUrl
    ensures settings.queryUrl == settings.serverUrl + "/" + FILE_CATALOG
    ensures Sends(post, settings, "whoami", None)
  {
    post := Call(settings, FILE_CATALOG, "whoami", None);
  }

  /** `get_directory_dump`: the file catalog's `getDirectoryDump` of one path. */
  method GetDirectoryDump(settings: DiracSettings, lfns: string) returns (post: Post)
    modifies settings`queryUrl
    ensures settings.queryUrl == settings.serverUrl + "/" + FILE_CATALOG
    ensures Sends(post, settings, "getDirectoryDump", Some([lfns]))
  {
    post := Call(settings, FILE_CATALOG, "getDirectoryDump", Some([lfns]));
  }

  /** `create_directory`: the file catalog's `createDirectory` of one path. */
  method CreateDirectory(settings: DiracSettings, lfns: string) returns (post: Post)
    modifies settings`queryUrl
    ensures settings.queryUrl == settings.serverUrl + "/" + FILE_CATALOG
    ensures Sends(post, settings, "createDirectory", Some([lfns]))
  {
    post := Call(settings, FILE_CATALOG, "createDirectory", Some([lfns]));
  }

  /** `remove_directory`: the file catalog's `removeDirectory` of one path. */
  method RemoveDirectory(settings: DiracSettings, lfns: string) returns (post: Post)
    modifies settings`queryUrl
    ensures settings.queryUrl == settings.serverUrl + "/" + FILE_CATALOG
    ensures Sends(post, settings, "removeDirectory", Some([lfns]))
  {
    post := Call(settings, FILE_CATALOG, "removeDirectory", Some([lfns]));
  }

  /** `remove_file`: the file catalog's `removeFile` of one path. */
  method RemoveFile(settings: DiracSettings, lfns: string) returns (post: Post)
    modifies settings`queryUrl
    ensures settings.queryUrl == settings.serverUrl + "/" + FILE_CATALOG
    ensures Sends(post, settings, "removeFile", Some([lfns]))
  {
    post := Call(settings, FILE_CATALOG, "removeFile", Some([lfns]));
  }

  /** `get_file`: the file catalog's `getFile` of one path. */
  method GetFile(settings: DiracSettings, lfns: string) returns (post: Post)
    modifies settings`queryUrl
    ensures settings.queryUrl == settings.serverUrl + "/" + FILE_CATALOG
    ensures Sends(post, settings, "getFile", Some([lfns]))
  {
    post := Call(settings, FILE_CATALOG, "getFile", Some([lfns]));
  }

  // ---------------------------------------------------------------------------
  // Lemmas
  // ---------------------------------------------------------------------------

  /**
   * What a request sends: its method name; an `args` list exactly when it
   * has arguments, and then that list; a `clientSetup` of "GridPP" exactly
   * when the query URL names the development server; nothing else.
   */
  lemma RequestParams(queryUrl: string, name: string, args: Option<seq<string>>)
    ensures var data, dev := SetDefaults(queryUrl, Request(name, args)), Contains(queryUrl, DEV_HOST);
            && data.Keys == {"method"} + (if args.Some? then {"args"} else {}) + (if dev then {CLIENT_SETUP} else {})
            && data["method"] == Text(name)
            && (args.Some? ==> data["args"] == Args(args.value))
            && (dev ==> data[CLIENT_SETUP] == Text(DEFAULT_SETUP))
  {
  }

  /** An occurrence of the host in `server + "/" + endpoint` lies within `server`. */
  lemma OccurrenceInServer(server: string, endpoint: string, i: nat)
    requires '.' !in endpoint
    requires i + |DEV_HOST| <= |server + "/" + endpoint|
    ensures OccursAt(server + "/" + endpoint, DEV_HOST, i) ==>
              i + |DEV_HOST| <= |server| && OccursAt(server, DEV_HOST, i)
  {
    var u := server + "/" + endpoint;
    var n := |DEV_HOST|;
    if i + n <= |server| {
      assert u[i..i + n] == server[i..i + n];
    } else if i <= |server| {
      // the separator would be a character of the host, which has no '/'
      assert u[i..i + n][|server| - i] == '/';
      assert forall j :: 0 <= j < n ==> DEV_HOST[j] != '/';
    } else {
      // the host's first dot would be a character of the endpoint
      assert u[i..i + n][8] == endpoint[i + 8 - |server| - 1];
      assert DEV_HOST[8] == '.';
    }
  }

  /**
   * The `clientSetup` default depends only on the server URL: the query URL
   * of any of the three endpoints names the development server exactly when
   * the server URL does.
   */
  lemma DevServerIff(server: string, endpoint: string)
    requires endpoint in {JOB_MANAGER, JOB_MONITORING, FILE_CATALOG}
    ensures Contains(server + "/" + endpoint, DEV_HOST) <==> Contains(server, DEV_HOST)
  {
    var u := server + "/" + endpoint;
    var n := |DEV_HOST|;
    assert '.' !in endpoint;
    if Contains(u, DEV_HOST) {
      var i :| 0 <= i <= |u| - n && OccursAt(u, DEV_HOST, i);
      OccurrenceInServer(server, endpoint, i);
    }
    if Contains(server, DEV_HOST) {
      var i :| 0 <= i <= |server| - n && OccursAt(server, DEV_HOST, i);
      assert u[i..i + n] == server[i..i + n];
      assert OccursAt(u, DEV_HOST, i);
    }
  }
}
