/** The credential store of credentials_manager.rs: one JSON file per service,
    at `credentials/<service>.json`, holding `{username, password, service}`.

    The `credentials` directory is a map from file path to the record the file
    decodes to.  Filesystem and serde failures are an explicit parameter: the set
    of steps that fail on this call.  Each operation checks its steps in the
    order of the source, and the first failing one is the `Err` it returns. */
module CredentialStore {
  import opened Results

  /** The record saved per service (credentials_manager.rs, struct Credentials). */
  datatype Credentials = Credentials(username: string, password: string, service: string)

  /** The fallible steps of the three operations, in the order they appear. */
  datatype Step =
    | Serialize   // serde_json::to_string
    | CreateDir   // fs::create_dir_all("credentials")
    | Write       // fs::write
    | Metadata    // the metadata query behind Path::exists
    | Read        // fs::read_to_string
    | Parse       // serde_json::from_str
    | Remove      // fs::remove_file

  /** The error string of the source, abstracted to the step that produced it. */
  datatype IoError = IoError(step: Step)

  const Dir: string := "credentials/"
  const Ext: string := ".json"

  /** The file that holds the record of `service`. */
  function PathFor(service: string): (p: string)
    ensures |p| == |Dir| + |service| + |Ext|
    ensures p[..|Dir|] == Dir && p[|p| - |Ext|..] == Ext
  {
    Dir + service + Ext
  }

  /** Reads the service name back out of a file path, if it has the shape
      `credentials/<service>.json`. */
  function ServiceOfPath(p: string): (r: Option<string>)
    ensures r.Some? ==> |r.value| + |Dir| + |Ext| == |p|
  {
    if |p| >= |Dir| + |Ext| && p[..|Dir|] == Dir && p[|p| - |Ext|..] == Ext
    then Some(p[|Dir|..|p| - |Ext|])
    else None
  }

  lemma ServiceOfPathFor(service: string)
    ensures ServiceOfPath(PathFor(service)) == Some(service)
  {
    var p := PathFor(service);
    assert p[|Dir|..|p| - |Ext|] == service;
  }

  lemma PathForServiceOf(p: string)
    requires ServiceOfPath(p).Some?
    ensures PathFor(ServiceOfPath(p).value) == p
  {
    var s := ServiceOfPath(p).value;
    assert p == p[..|Dir|] + p[|Dir|..|p| - |Ext|] + p[|p| - |Ext|..];
  }

  /** Distinct services never share a file. */
  lemma PathForInjective(s: string, t: string)
    ensures PathFor(s) == PathFor(t) ==> s == t
  {
    if PathFor(s) == PathFor(t) {
      ServiceOfPathFor(s);
      ServiceOfPathFor(t);
    }
  }

  /** The first step of `steps` that is among the failing ones. */
  function FirstFailing(steps: seq<Step>, faults: set<Step>): (r: Option<Step>)
    ensures r.None? <==> forall i :: 0 <= i < |steps| ==> steps[i] !in faults
    ensures r.Some? ==>
      && r.value in faults
      && exists i :: 0 <= i < |steps| && steps[i] == r.value &&
           forall j :: 0 <= j < i ==> steps[j] !in faults
  {
    if steps == [] then None
    else if steps[0] in faults then Some(steps[0])
    else
      var r := FirstFailing(steps[1..], faults);
      assert forall i :: 1 <= i < |steps| ==> steps[i] == steps[1..][i - 1];
      if r.Some? then
        ghost var i :| 0 <= i < |steps[1..]| && steps[1..][i] == r.value &&
          forall j :: 0 <= j < i ==> steps[1..][j] !in faults;
        assert steps[i + 1] == r.value;
        r
      else r
  }

  /** `Ok(())` when no step failed, else the error of the first failing one. */
  function Outcome(failed: Option<Step>): Result<(), IoError>
  {
    match failed
    case None => Ok(())
    case Some(st) => Err(IoError(st))
  }

  /** Every file holds the record of the service it is named after. */
  ghost predicate WellFormed(dir: map<string, Credentials>)
  {
    forall p :: p in dir ==> p == PathFor(dir[p].service)
  }

  /** The record on file for `service`, if any. */
  function Fetch(dir: map<string, Credentials>, service: string): (r: Option<Credentials>)
    ensures r.Some? <==> PathFor(service) in dir
    ensures WellFormed(dir) && r.Some? ==> r.value.service == service
  {
    var p := PathFor(service);
    if p in dir then
      PathForInjective(dir[p].service, service);
      Some(dir[p])
    else None
  }

  /** The directory after the file of `c.service` is (over)written with `c`. */
  function Store(dir: map<string, Credentials>, c: Credentials): (d: map<string, Credentials>)
    ensures d.Keys == dir.Keys + {PathFor(c.service)}
  {
    dir[PathFor(c.service) := c]
  }

  /** The directory after the file of `service` is removed, if it was there. */
  function Erase(dir: map<string, Credentials>, service: string): (d: map<string, Credentials>)
    ensures d.Keys == dir.Keys - {PathFor(service)}
  {
    dir - {PathFor(service)}
  }

  lemma StoreKeepsWellFormed(dir: map<string, Credentials>, c: Credentials)
    requires WellFormed(dir)
    ensures WellFormed(Store(dir, c))
  {
  }

  lemma EraseKeepsWellFormed(dir: map<string, Credentials>, service: string)
    requires WellFormed(dir)
    ensures WellFormed(Erase(dir, service))
  {
  }

  /** Save then get returns exactly what was saved, under its own service name. */
  lemma SaveThenGet(dir: map<string, Credentials>, service: string, username: string, password: string)
    ensures Fetch(Store(dir, Credentials(username, password, service)), service)
         == Some(Credentials(username, password, service))
  {
  }

  /** A second save replaces the whole record: nothing of the first survives. */
  lemma SaveReplaces(dir: map<string, Credentials>, c1: Credentials, c2: Credentials)
    requires c1.service == c2.service
    ensures Store(Store(dir, c1), c2) == Store(dir, c2)
  {
  }

  /** Saving one service leaves every other service's record as it was. */
  lemma SaveLeavesOthers(dir: map<string, Credentials>, c: Credentials, other: string)
    requires other != c.service
    ensures Fetch(Store(dir, c), other) == Fetch(dir, other)
  {
    PathForInjective(c.service, other);
  }

  /** After a delete there is no record for that service. */
  lemma DeleteThenGet(dir: map<string, Credentials>, service: string)
    ensures Fetch(Erase(dir, service), service) == None
  {
  }

  /** Deleting an absent service changes nothing, so deleting twice is deleting once. */
  lemma DeleteIdempotent(dir: map<string, Credentials>, service: string)
    ensures Fetch(dir, service).None? ==> Erase(dir, service) == dir
    ensures Erase(Erase(dir, service), service) == Erase(dir, service)
  {
  }

  /** Deleting one service leaves every other service's record as it was. */
  lemma DeleteLeavesOthers(dir: map<string, Credentials>, service: string, other: string)
    requires other != service
    ensures Fetch(Erase(dir, service), other) == Fetch(dir, other)
  {
    PathForInjective(service, other);
  }

  /** The `credentials` directory and the three commands that act on it. */
  class Directory {
    /** File path to the record that file decodes to. */
    var files: map<string, Credentials>

    ghost predicate Valid()
      reads this
    {
      WellFormed(files)
    }

    /** A directory with no credential files yet. */
    constructor ()
      ensures Valid() && files == map[]
    {
      files := map[];
    }

    /** save_credentials: overwrite the file of `service` with the new record. */
    method SaveCredentials(service: string, username: string, password: string, faults: set<Step>)
      returns (r: Result<(), IoError>)
      requires Valid()
      modifies this
      ensures Valid()
      ensures r == Outcome(FirstFailing([Serialize, CreateDir, Write], faults))
      ensures files == if r.Ok? then Store(old(files), Credentials(username, password, service))
                       else old(files)
    {
      var credentials := Credentials(username, password, service);
      if Serialize in faults {
        return Err(IoError(Serialize));
      }
      if CreateDir in faults {
        return Err(IoError(CreateDir));
      }
      if Write in faults {
        ghost var steps := [Serialize, CreateDir, Write];
        assert steps[0] !in faults && steps[1] !in faults && steps[2] in faults;
        return Err(IoError(Write));
      }
      StoreKeepsWellFormed(files, credentials);
      files := files[PathFor(service) := credentials];
      return Ok(());
    }

    /** get_credentials: a missing file (or one whose metadata cannot be read)
        is `Ok(None)`; a present one is read and decoded. */
    method GetCredentials(service: string, faults: set<Step>)
      returns (r: Result<Option<Credentials>, IoError>)
      requires Valid()
      ensures Fetch(files, service).None? || Metadata in faults ==> r == Ok(None)
      ensures Fetch(files, service).Some? && Metadata !in faults ==>
        r == match FirstFailing([Read, Parse], faults)
             case Some(st) => Err(IoError(st))
             case None => Ok(Fetch(files, service))
      ensures r.Ok? && r.value.Some? ==> r.value.value.service == service
    {
      var path := PathFor(service);
      var present := path in files && Metadata !in faults;
      if !present {
        return Ok(None);
      }
      if Read in faults {
        return Err(IoError(Read));
      }
      if Parse in faults {
        return Err(IoError(Parse));
      }
      var credentials := files[path];
      return Ok(Some(credentials));
    }

    /** delete_credentials: remove the file of `service` if it exists;
        an absent file is not an error. */
    method DeleteCredentials(service: string, faults: set<Step>)
      returns (r: Result<(), IoError>)
      requires Valid()
      modifies this
      ensures Valid()
      ensures Fetch(old(files), service).None? || Metadata in faults ==>
        r == Ok(()) && files == old(files)
      ensures Fetch(old(files), service).Some? && Metadata !in faults ==>
        r == Outcome(FirstFailing([Remove], faults)) &&
        files == if r.Ok? then Erase(old(files), service) else old(files)
    {
      var path := PathFor(service);
      if path in files && Metadata !in faults {
        if Remove in faults {
          return Err(IoError(Remove));
        }
        EraseKeepsWellFormed(files, service);
        files := files - {path};
      }
      return Ok(());
    }
  }
}
