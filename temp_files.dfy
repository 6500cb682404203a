/**
 * Temporary files: resolving the scratch directory, building the template
 * handed to `mkstemps`, and enumerating the temp files left in the directory.
 * The environment, `stat`, `opendir`/`readdir` and `mkstemps` are inputs.
 */
module TempFiles {
  import opened Types
  import opened Paths

  /** The process environment, as `getenv` sees it. */
  type Environment = map<string, string>

  /**
   * What the model needs of the file system: the paths `stat` reports as
   * directories, and the entries `readdir` yields, in order, for each path
   * that `opendir` can open.
   */
  datatype FileSystem = FileSystem(directories: set<string>, listings: map<string, seq<string>>)

  /** `getenv(name)`: absent means null. */
  function Getenv(env: Environment, name: string): Option<string>
  {
    if name in env then Some(env[name]) else None
  }

  /**
   * The variable is set and names an existing directory. The empty path
   * names nothing, so "" never qualifies.
   */
  predicate Qualifies(fs: FileSystem, v: Option<string>)
  {
    v.Some? && v.value != "" && v.value in fs.directories
  }

  /** The environment variables probed, in order. */
  const TempVariables: seq<string> := ["TMPDIR", "TEMP", "TMP"]

  /** The directory used when no variable names an existing directory. */
  const FallbackTempDirectory: string := "/tmp/"

  /** The value of the first of `names` that names a directory, else the fallback. */
  function FirstDirectory(env: Environment, fs: FileSystem, names: seq<string>): (d: string)
    ensures d != []
  {
    if names == [] then FallbackTempDirectory
    else if Qualifies(fs, Getenv(env, names[0])) then env[names[0]]
    else FirstDirectory(env, fs, names[1..])
  }

  /** The variable chosen is the first one that qualifies. */
  lemma {:induction false} FirstDirectoryPicksFirst(env: Environment, fs: FileSystem, names: seq<string>, k: nat)
    requires k < |names| && Qualifies(fs, Getenv(env, names[k]))
    requires forall j :: 0 <= j < k ==> !Qualifies(fs, Getenv(env, names[j]))
    ensures FirstDirectory(env, fs, names) == env[names[k]]
  {
    if k > 0 {
      assert !Qualifies(fs, Getenv(env, names[0]));
      FirstDirectoryPicksFirst(env, fs, names[1..], k - 1);
    }
  }

  /** When no variable qualifies, the fallback is used. */
  lemma {:induction false} FirstDirectoryFallsBack(env: Environment, fs: FileSystem, names: seq<string>)
    requires forall j :: 0 <= j < |names| ==> !Qualifies(fs, Getenv(env, names[j]))
    ensures FirstDirectory(env, fs, names) == FallbackTempDirectory
  {
    if names != [] {
      assert !Qualifies(fs, Getenv(env, names[0]));
      FirstDirectoryFallsBack(env, fs, names[1..]);
    }
  }

  /** The result is the fallback or the value of a variable naming a directory. */
  lemma {:induction false} FirstDirectoryQualifies(env: Environment, fs: FileSystem, names: seq<string>)
    ensures var d := FirstDirectory(env, fs, names);
      d == FallbackTempDirectory || exists k :: 0 <= k < |names| && Getenv(env, names[k]) == Some(d) && d in fs.directories
  {
    if names != [] && !Qualifies(fs, Getenv(env, names[0])) {
      FirstDirectoryQualifies(env, fs, names[1..]);
      var d := FirstDirectory(env, fs, names);
      if d != FallbackTempDirectory {
        var k :| 0 <= k < |names| - 1 && Getenv(env, names[1..][k]) == Some(d) && d in fs.directories;
        assert names[1..][k] == names[k + 1];
      }
    }
  }

  /** `tempFileDirectory`: TMPDIR, then TEMP, then TMP, then "/tmp/". */
  method TempFileDirectory(env: Environment, fs: FileSystem) returns (d: string)
    ensures d == FirstDirectory(env, fs, TempVariables)
  {
    var tmpenv := Getenv(env, "TMPDIR");
    if !Qualifies(fs, tmpenv) {
      tmpenv := Getenv(env, "TEMP");
    }
    if !Qualifies(fs, tmpenv) {
      tmpenv := Getenv(env, "TMP");
    }
    if !Qualifies(fs, tmpenv) {
      tmpenv := Some(FallbackTempDirectory);   // none of the variables names a directory
    }
    d := tmpenv.value;
    assert TempVariables[0] == "TMPDIR" && TempVariables[1..] == ["TEMP", "TMP"];
    assert ["TEMP", "TMP"][1..] == ["TMP"] && ["TMP"][1..] == [];
    assert FirstDirectory(env, fs, ["TMP"]) == if Qualifies(fs, Getenv(env, "TMP")) then env["TMP"] else FallbackTempDirectory;
    assert FirstDirectory(env, fs, ["TEMP", "TMP"]) == if Qualifies(fs, Getenv(env, "TEMP")) then env["TEMP"] else FirstDirectory(env, fs, ["TMP"]);
  }

  /**
   * The temp-file naming constants: one prefix and one suffix per kind of
   * temp file, and the leading prefix all kinds share.
   */
  datatype TempNames = TempNames(prefixAll: string, prefixes: seq<string>, suffixes: seq<string>)
  {
    predicate Valid()
    {
      && |prefixes| == |suffixes|
      && forall k :: 0 <= k < |prefixes| ==> StartsWith(prefixes[k], prefixAll)
    }
  }

  /** The six characters `mkstemps` replaces. */
  const Placeholder: string := "XXXXXX"

  type Fill = s: string | |s| == 6 witness "AAAAAA"

  /**
   * What `mkstemps(template, suffixLength)` does: fail (-1), or create the
   * file and return its descriptor, having replaced the six characters
   * before the suffix by `fill`.
   */
  datatype Mkstemps = Failed | Created(fd: nat, fill: Fill)

  /**
   * The template after `mkstemps` has filled in its placeholder: the six
   * characters before the suffix are replaced and nothing else changes.
   */
  function Filled(template: string, suffixLength: nat, fill: Fill): (r: string)
    requires suffixLength + 6 <= |template|
    ensures |r| == |template|
    ensures forall i :: 0 <= i < |template| - suffixLength - 6 ==> r[i] == template[i]
    ensures forall i :: |template| - suffixLength <= i < |template| ==> r[i] == template[i]
    ensures r[|template| - suffixLength - 6..|template| - suffixLength] == fill
  {
    template[..|template| - suffixLength - 6] + fill + template[|template| - suffixLength..]
  }

  /**
   * `tempFileForWrite(tt, nameOut)`: returns the stream (modelled by its
   * descriptor) and the new value of `nameOut`.
   */
  method TempFileForWrite(env: Environment, fs: FileSystem, names: TempNames, tt: nat,
                          mkstemps: (string, int) -> Mkstemps, nameOut: string)
    returns (stream: Option<nat>, name: string)
    requires names.Valid() && tt < |names.prefixes|
    ensures var dir := FirstDirectory(env, fs, TempVariables);
      var prefix, suffix := names.prefixes[tt], names.suffixes[tt];
      match mkstemps(WithSlash(dir) + prefix + Placeholder + suffix, |suffix|)
      case Failed => stream == None && name == nameOut
      case Created(fd, fill) => stream == Some(fd) && name == WithSlash(dir) + prefix + fill + suffix
  {
    var t := TempFileDirectory(env, fs);
    ghost var dir := t;
    if t[|t| - 1] != '/' {
      t := t + "/";
    }
    t := t + names.prefixes[tt];
    t := t + Placeholder;
    t := t + names.suffixes[tt];
    assert t == WithSlash(dir) + names.prefixes[tt] + Placeholder + names.suffixes[tt];

    stream := None;
    name := nameOut;
    var reply := mkstemps(t, |names.suffixes[tt]|);
    if reply.Created? {
      stream := Some(reply.fd);
      name := Filled(t, |names.suffixes[tt]|, reply.fill);
      assert name == WithSlash(dir) + names.prefixes[tt] + reply.fill + names.suffixes[tt];
    }
  }

  /** The entries whose name starts with `prefix`, in listing order. */
  function Matching(entries: seq<string>, prefix: string): (m: seq<string>)
    ensures |m| <= |entries|
  {
    if entries == [] then []
    else (if StartsWith(entries[0], prefix) then [entries[0]] else []) + Matching(entries[1..], prefix)
  }

  /** Filtering distributes over concatenation, so it keeps the listing's order. */
  lemma {:induction false} MatchingConcat(a: seq<string>, b: seq<string>, prefix: string)
    ensures Matching(a + b, prefix) == Matching(a, prefix) + Matching(b, prefix)
  {
    if a != [] {
      var head := if StartsWith(a[0], prefix) then [a[0]] else [];
      assert a + b != [] && (a + b)[0] == a[0] && (a + b)[1..] == a[1..] + b;
      MatchingConcat(a[1..], b, prefix);
      calc {
        Matching(a + b, prefix);
        head + Matching(a[1..] + b, prefix);
        head + (Matching(a[1..], prefix) + Matching(b, prefix));
        (head + Matching(a[1..], prefix)) + Matching(b, prefix);
      }
    } else {
      assert a + b == b;
    }
  }

  /** A name is kept exactly when it is listed and starts with `prefix`. */
  lemma {:induction false} MatchingMembers(entries: seq<string>, prefix: string, x: string)
    ensures x in Matching(entries, prefix) <==> x in entries && StartsWith(x, prefix)
  {
    if entries != [] {
      MatchingMembers(entries[1..], prefix, x);
      assert entries == [entries[0]] + entries[1..];
    }
  }

  /** Each name joined onto `dir` with exactly one '/'. */
  function Joined(dir: string, names: seq<string>): (r: seq<string>)
    requires dir != []
    ensures |r| == |names|
    ensures forall k :: 0 <= k < |names| ==> r[k] == WithSlash(dir) + names[k]
  {
    if names == [] then [] else [WithSlash(dir) + names[0]] + Joined(dir, names[1..])
  }

  /**
   * `findTempFiles`: the paths of the temp-directory entries that start with
   * the shared prefix, in directory-read order; none if the directory cannot
   * be opened.
   */
  method FindTempFiles(env: Environment, fs: FileSystem, names: TempNames) returns (ret: seq<string>)
    ensures var dir := FirstDirectory(env, fs, TempVariables);
      ret == if dir in fs.listings then Joined(dir, Matching(fs.listings[dir], names.prefixAll)) else []
  {
    ret := [];
    var dirname := TempFileDirectory(env, fs);
    if dirname !in fs.listings {
      return;
    }
    var entries := fs.listings[dirname];
    var i := 0;
    while i < |entries|
      invariant i <= |entries|
      invariant ret == Joined(dirname, Matching(entries[..i], names.prefixAll))
    {
      var entry := entries[i];
      ghost var before := ret;
      if StartsWith(entry, names.prefixAll) {
        ret := ret + [dirname];
        var last := |ret| - 1;
        if ret[last][|ret[last]| - 1] != '/' {
          ret := ret[last := ret[last] + "/"];
        }
        ret := ret[last := ret[last] + entry];
        assert ret == before + [WithSlash(dirname) + entry];
      }
      assert entries[..i + 1] == entries[..i] + [entry];
      MatchingConcat(entries[..i], [entry], names.prefixAll);
      i := i + 1;
    }
    assert entries[..i] == entries;
  }

  /**
   * A file created by `TempFileForWrite` is found by `FindTempFiles`: its
   * name is the directory joined to a listed entry that has the shared prefix.
   */
  lemma CreatedFileIsFound(dir: string, names: TempNames, tt: nat, fill: Fill, entries: seq<string>)
    requires dir != [] && names.Valid() && tt < |names.prefixes|
    requires names.prefixes[tt] + fill + names.suffixes[tt] in entries
    ensures WithSlash(dir) + names.prefixes[tt] + fill + names.suffixes[tt]
              in Joined(dir, Matching(entries, names.prefixAll))
  {
    var base := names.prefixes[tt] + fill + names.suffixes[tt];
    assert StartsWith(names.prefixes[tt], names.prefixAll);
    assert base[..|names.prefixAll|] == names.prefixes[tt][..|names.prefixAll|];
    MatchingMembers(entries, names.prefixAll, base);
    var m := Matching(entries, names.prefixAll);
    var k :| 0 <= k < |m| && m[k] == base;
    assert WithSlash(dir) + names.prefixes[tt] + fill + names.suffixes[tt] == WithSlash(dir) + base;
    assert Joined(dir, m)[k] == WithSlash(dir) + base;
  }
}
