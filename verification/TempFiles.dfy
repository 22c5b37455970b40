/** Writing a file by way of a temporary one beside it, and clearing away the ones left behind. */
module TempFiles {
  import opened Wrappers
  import opened Decimal

  /** lineageMaxAge, in nanoseconds. */
  const MAX_AGE := 12 * 3600 * 1_000_000_000

  // ── names ──

  function TempOf(file: string, pid: nat): string {
    file + "." + Digits(pid) + ".tmp"
  }

  /** "^(.+)\.(\d+)\.tmp$". */
  predicate IsTempOf(name: string, file: string, pid: string) {
    name == file + "." + pid + ".tmp" && file != "" && '\n' !in file && pid != "" && IsDigits(pid)
  }

  /** The digits a text ends in. */
  function DigitsFrom(s: string): (k: nat)
    ensures k <= |s| && IsDigits(s[k..]) && (k > 0 ==> !('0' <= s[k - 1] <= '9'))
  {
    if s == "" || !('0' <= s[|s| - 1] <= '9') then |s| else DigitsFrom(s[..|s| - 1])
  }

  /** What tempNameRe finds: the file's name and the process's. */
  function TempName(name: string): Option<(string, string)> {
    if |name| < 4 || name[|name| - 4..] != ".tmp" then None
    else
      var s := name[..|name| - 4];
      var k := DigitsFrom(s);
      if k == |s| || k < 2 || s[k - 1] != '.' || '\n' in s[..k - 1] then None
      else Some((s[..k - 1], s[k..]))
  }

  lemma TempNameIff(name: string, file: string, pid: string)
    ensures TempName(name) == Some((file, pid)) <==> IsTempOf(name, file, pid)
  {
    if IsTempOf(name, file, pid) {
      var s := file + "." + pid;
      assert name[|name| - 4..] == ".tmp" && name[..|name| - 4] == s;
      LastDot(file, pid);
    }
    if TempName(name) == Some((file, pid)) {
      var s := name[..|name| - 4];
      var k := DigitsFrom(s);
      assert s[k - 1..k] == ".";
      assert s == s[..k - 1] + s[k - 1..k] + s[k..];
      assert name == s + name[|name| - 4..];
    }
  }

  lemma LastDot(file: string, pid: string)
    requires IsDigits(pid)
    ensures var s := file + "." + pid; DigitsFrom(s) == |file| + 1 && s[..|file|] == file && s[|file| + 1..] == pid
  {
    hide DigitsFrom;
    var s := file + "." + pid;
    DigitsBegin(s, |file| + 1);
  }

  lemma DigitsBegin(s: string, n: nat)
    requires 0 < n <= |s| && !('0' <= s[n - 1] <= '9') && IsDigits(s[n..])
    ensures DigitsFrom(s) == n
  {
    hide DigitsFrom;
    var k := DigitsFrom(s);
    assert forall i :: k <= i < |s| ==> s[i] == s[k..][i - k];
    assert forall i :: n <= i < |s| ==> s[i] == s[n..][i - n];
  }

  predicate IsHex(s: string) {
    forall k :: 0 <= k < |s| ==> '0' <= s[k] <= '9' || 'a' <= s[k] <= 'f'
  }

  /** lineageNameRe. */
  predicate IsLineageName(name: string) {
    |name| == 37 && IsHex(name[..32]) && name[32..] == ".json"
  }

  const HEX: set<char> := {'0', '1', '2', '3', '4', '5', '6', '7', '8', '9', 'a', 'b', 'c', 'd', 'e', 'f'}

  /** "^[0-9a-f]{32}\.json$". */
  lemma LineageNameIff(name: string)
    ensures IsLineageName(name) <==>
            exists hex :: |hex| == 32 && (forall c :: c in hex ==> c in HEX) && name == hex + ".json"
  {
    forall c: char
      ensures '0' <= c <= '9' || 'a' <= c <= 'f' <==> c in HEX
    {
    }
    if IsLineageName(name) {
      assert name == name[..32] + ".json";
    }
    if hex :| |hex| == 32 && (forall c :: c in hex ==> c in HEX) && name == hex + ".json" {
      assert name[..32] == hex && name[32..] == ".json";
      assert forall k :: 0 <= k < |hex| ==> hex[k] in hex;
    }
  }

  // ── a directory ──

  datatype File<T> = File(data: T, modified: int)

  /** Whether a writer of `file` sweeps away `name`. */
  predicate Swept(name: string, modified: int, file: string, pid: nat, now: int, lineageDir: bool) {
    var m := TempName(name);
    && m.Some? && m.value.1 != Digits(pid)
    && (m.value.0 == file || (lineageDir && IsLineageName(m.value.0)))
    && now - modified > MAX_AGE
  }

  /** One of the first `n` entries of the listing has this name and is to go. */
  ghost predicate SweptIn(listing: seq<(string, int)>, n: nat, name: string, file: string, pid: nat, now: int,
    lineageDir: bool)
    requires n <= |listing|
  {
    exists k :: 0 <= k < n && listing[k].0 == name && Swept(name, listing[k].1, file, pid, now, lineageDir)
  }

  class Directory<T(==)> {
    var files: map<string, File<T>>

    constructor ()
      ensures files == map[]
    {
      files := map[];
    }

    /** sweepStaleTemps, over what listing the directory gave; removing a file may fail. */
    method SweepStaleTemps(listing: seq<(string, int)>, file: string, pid: nat, now: int, lineageDir: bool,
        removed: set<string>)
      requires forall k :: 0 <= k < |listing| && listing[k].0 in files ==> files[listing[k].0].modified == listing[k].1
      modifies this
      ensures forall n :: n in files <==>
                (n in old(files) && !(n in removed && SweptIn(listing, |listing|, n, file, pid, now, lineageDir)))
      ensures forall n :: n in files ==> files[n] == old(files)[n]
      ensures forall n :: n in old(files) && IsLineageName(n) ==> n in files
    {
      hide TempName, IsLineageName, Swept;
      var k := 0;
      while k < |listing|
        invariant 0 <= k <= |listing|
        invariant forall n :: n in files <==>
                    (n in old(files) && !(n in removed && SweptIn(listing, k, n, file, pid, now, lineageDir)))
        invariant forall n :: n in files ==> files[n] == old(files)[n]
      {
        var name, modified := listing[k].0, listing[k].1;
        if Swept(name, modified, file, pid, now, lineageDir) && name in removed {
          files := files - {name};
        }
        k := k + 1;
      }
      forall n | n in old(files) && IsLineageName(n)
        ensures n in files
      {
        LineageIsNoTemp(n);
      }
    }

    /** replaceViaTemp, after its sweep: a write or a rename that fails leaves the file as it was,
        and takes the temporary away where that can be done. */
    method ReplaceViaTemp(file: string, pid: nat, data: T, now: int, wrote: bool, part: T, renamed: bool,
        cleared: bool) returns (ok: bool)
      modifies this
      ensures ok == (wrote && renamed)
      ensures files == if ok then old(files)[file := File(data, now)] - {TempOf(file, pid)}
                       else if cleared then old(files) - {TempOf(file, pid)}
                       else old(files)[TempOf(file, pid) := File(if wrote then data else part, now)]
    {
      var tmp := TempOf(file, pid);
      assert |tmp| > |file|;
      if !wrote {
        files := files[tmp := File(part, now)];
        if cleared {
          files := files - {tmp};
        }
        return false;
      }
      files := files[tmp := File(data, now)];
      if !renamed {
        if cleared {
          files := files - {tmp};
        }
        return false;
      }
      files := files[file := files[tmp]] - {tmp};
      return true;
    }
  }

  /** A writer's temporary is its own to every sweep: the same process's never takes it, and
      another's only if it sweeps that file (or is a lineage write and the file is one) and half a
      day has gone by. */
  lemma TempIsSweptIff(file: string, pid: nat, modified: int, sweptFile: string, sweeper: nat, now: int,
      lineageDir: bool)
    requires file != "" && '\n' !in file
    ensures Swept(TempOf(file, pid), modified, sweptFile, sweeper, now, lineageDir) <==>
            pid != sweeper && (file == sweptFile || (lineageDir && IsLineageName(file))) && now - modified > MAX_AGE
  {
    hide TempName, IsLineageName;
    TempNameIff(TempOf(file, pid), file, Digits(pid));
    ValueOfDigits(pid);
    ValueOfDigits(sweeper);
  }

  /** No lineage file's name is a temporary's, whoever sweeps. */
  lemma LineageIsNoTemp(name: string)
    requires IsLineageName(name)
    ensures forall modified, file, pid, now, lineageDir :: !Swept(name, modified, file, pid, now, lineageDir)
  {
    assert name[|name| - 1] == name[32..][4];
    assert name[|name| - 4..][3] == name[|name| - 1];
  }
}
