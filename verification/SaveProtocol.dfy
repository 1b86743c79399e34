/** Saving a configuration (`configurator/save.py`) as a sequence of file operations, with other
    processes acting before every one of them. */
module SaveProtocol {
  import opened Wrappers

  type Files = map<string, string>

  function Entry(f: Files, path: string): Option<string> {
    if path in f then Some(f[path]) else None
  }

  /** A change of the files: this process's, or what the others did before its next operation. */
  datatype Event = Event(mine: bool, before: Files, after: Files)

  type Log = seq<Event>

  /** What the other processes do before the n-th operation. */
  type Others = (nat, Files) -> Files

  ghost predicate SameExcept(f: Files, g: Files, paths: set<string>) {
    forall x :: x !in paths ==> Entry(f, x) == Entry(g, x)
  }

  /** No other process acts. */
  ghost predicate Quiet(others: Others) {
    forall n, f :: others(n, f) == f
  }

  /** The others leave one path alone before the operations `lo` to `hi`. */
  ghost predicate LeaveAlone(others: Others, path: string, lo: nat, hi: nat) {
    forall n, f :: lo <= n < hi ==> Entry(others(n, f), path) == Entry(f, path)
  }

  ghost predicate Private(others: Others, path: string) {
    forall n, f :: Entry(others(n, f), path) == Entry(f, path)
  }

  /** From event `from` on, this process changes nothing but the path. */
  ghost predicate MineOnlyAt(log: Log, from: nat, path: string) {
    forall i :: from <= i < |log| && log[i].mine ==> SameExcept(log[i].before, log[i].after, {path})
  }

  /** From event `from` on, no state differs from `f` but at the paths. */
  ghost predicate StatesOnlyAt(log: Log, from: nat, f: Files, paths: set<string>) {
    forall i :: from <= i < |log| ==> SameExcept(f, log[i].after, paths)
  }

  /** Each event starts where the one before it ended. */
  ghost predicate Chained(log: Log) {
    forall i, k :: 0 <= i < |log| && k == i + 1 && k < |log| ==> log[i].after == log[k].before
  }

  class Disk {
    const others: Others
    var files: Files
    var clock: nat
    ghost var log: Log

    /** The log leads to the files. */
    ghost predicate Linked()
      reads this
    {
      Chained(log) && (log != [] ==> log[|log| - 1].after == files)
    }

    constructor (files: Files, others: Others)
      ensures this.files == files && this.others == others && clock == 0 && log == [] && Linked()
    {
      this.others := others;
      this.files := files;
      clock := 0;
      log := [];
    }

    method OthersAct()
      requires Linked()
      modifies this
      ensures Linked()
      ensures files == others(old(clock), old(files)) && clock == old(clock) + 1
      ensures log == old(log) + [Event(false, old(files), files)]
    {
      ghost var before := files;
      files := others(clock, files);
      clock := clock + 1;
      log := log + [Event(false, before, files)];
    }

    method Become(after: Files)
      requires Linked()
      modifies this`files, this`log
      ensures Linked()
      ensures files == after && log == old(log) + [Event(true, old(files), after)]
    {
      log := log + [Event(true, files, after)];
      files := after;
    }

    method Read(path: string) returns (content: Option<string>)
      requires Linked()
      modifies this
      ensures Linked()
      ensures files == others(old(clock), old(files)) && clock == old(clock) + 1
      ensures log == old(log) + [Event(false, old(files), files)]
      ensures content == Entry(files, path)
    {
      OthersAct();
      content := Entry(files, path);
    }

    /** `O_CREAT | O_EXCL`. */
    method Create(path: string) returns (created: bool)
      requires Linked()
      modifies this
      ensures Linked()
      ensures clock == old(clock) + 1
      ensures var mid := others(old(clock), old(files));
              && created == (path !in mid)
              && files == (if created then mid[path := ""] else mid)
              && log == old(log) + [Event(false, old(files), mid)]
                        + (if created then [Event(true, mid, mid[path := ""])] else [])
    {
      OthersAct();
      created := path !in files;
      if created { Become(files[path := ""]); }
    }

    /** Write through a descriptor of a file the others leave alone: every prefix is a state. */
    method Append(path: string, data: string, ghost alone: bool)
      requires path in files && files[path] == "" && LeaveAlone(others, path, clock, clock + |data|)
      requires alone ==> Quiet(others)
      requires Linked()
      modifies this
      ensures Linked()
      ensures clock == old(clock) + |data|
      ensures path in files && files[path] == data
      ensures old(log) <= log && MineOnlyAt(log, |old(log)|, path)
      ensures alone ==> files == old(files)[path := data] && StatesOnlyAt(log, |old(log)|, old(files), {path})
      ensures forall x :: x != path && LeaveAlone(others, x, old(clock), clock) ==> Entry(files, x) == old(Entry(files, x))
    {
      assert data[..0] == "";
      for k := 0 to |data|
        invariant Linked() && clock == old(clock) + k
        invariant path in files && files[path] == data[..k]
        invariant old(log) <= log && MineOnlyAt(log, |old(log)|, path)
        invariant alone ==> files == old(files)[path := data[..k]] && StatesOnlyAt(log, |old(log)|, old(files), {path})
        invariant forall x :: x != path && LeaveAlone(others, x, old(clock), clock) ==> Entry(files, x) == old(Entry(files, x))
      {
        AppendOne(path, data[k]);
        assert data[..k] + [data[k]] == data[..k + 1];
      }
      assert data[..|data|] == data;
    }

    method AppendOne(path: string, c: char)
      requires path in files && LeaveAlone(others, path, clock, clock + 1)
      requires Linked()
      modifies this
      ensures Linked()
      ensures clock == old(clock) + 1
      ensures var mid := others(old(clock), old(files));
              && Entry(mid, path) == Some(old(files)[path])
              && files == mid[path := old(files)[path] + [c]]
              && log == old(log) + [Event(false, old(files), mid), Event(true, mid, files)]
    {
      ghost var before := files;
      OthersAct();
      assert Entry(files, path) == Entry(before, path);
      Become(files[path := files[path] + [c]]);
    }

    /** `os.link`: fails if the new name exists. */
    method Link(source: string, path: string) returns (linked: bool)
      requires Linked()
      modifies this
      ensures Linked()
      ensures clock == old(clock) + 1
      ensures var mid := others(old(clock), old(files));
              && linked == (source in mid && path !in mid)
              && files == (if linked then mid[path := mid[source]] else mid)
              && log == old(log) + [Event(false, old(files), mid)]
                        + (if linked then [Event(true, mid, mid[path := mid[source]])] else [])
    {
      OthersAct();
      linked := source in files && path !in files;
      if linked { Become(files[path := files[source]]); }
    }

    method Unlink(path: string)
      requires Linked()
      modifies this
      ensures Linked()
      ensures clock == old(clock) + 1
      ensures var mid := others(old(clock), old(files));
              files == mid - {path} && log == old(log) + [Event(false, old(files), mid), Event(true, mid, files)]
    {
      OthersAct();
      Become(files - {path});
    }

    /** `os.replace`, of a file the others leave alone. */
    method Replace(source: string, path: string)
      requires source in files && source != path && LeaveAlone(others, source, clock, clock + 1)
      requires Linked()
      modifies this
      ensures Linked()
      ensures clock == old(clock) + 1
      ensures var mid := others(old(clock), old(files));
              && Entry(mid, source) == Some(old(files)[source])
              && files == mid[path := old(files)[source]] - {source}
              && log == old(log) + [Event(false, old(files), mid), Event(true, mid, files)]
    {
      ghost var before := files;
      OthersAct();
      assert Entry(files, source) == Entry(before, source);
      Become(files[path := files[source]] - {source});
    }
  }

  // ---- Saving ----

  /** One save: the validated text, the digest the target is expected to have (none for a new
      file), the name the temporary file gets, and that of the backup if one is wanted. */
  datatype Job = Job(target: string, tmp: string, text: string, expected: Option<string>, backup: Option<string>)

  datatype Outcome =
    | Invalid
    | ConcurrentlyModified
    | BackupFailed
    | Saved(backup: Option<string>, verified: bool)

  function ShaOf(sha: string -> string, content: Option<string>): Option<string> {
    if content.None? then None else Some(sha(content.value))
  }

  function BackupPaths(j: Job): set<string> {
    if j.backup.Some? then {j.backup.value} else {}
  }

  /** The names are distinct, and the temporary and backup names are this process's own. */
  ghost predicate Owned(d: Disk, j: Job)
    reads d
  {
    && j.tmp != j.target && j.target !in BackupPaths(j) && j.tmp !in BackupPaths(j)
    && j.tmp !in d.files && Private(d.others, j.tmp)
    && (j.backup.Some? ==> Private(d.others, j.backup.value))
  }

  /** What one of this process's changes may do to the target: install the complete text, over
      nothing if the target was expected not to exist, and otherwise right after others acted on a
      target that had the expected digest. */
  ghost predicate InstallsSafely(sha: string -> string, log: Log, i: nat, j: Job)
    requires i < |log|
  {
    && Entry(log[i].after, j.target) == Some(j.text)
    && match j.expected
       case None => j.target !in log[i].before
       case Some(_) =>
         && 0 < i && !log[i - 1].mine && log[i - 1].after == log[i].before
         && ShaOf(sha, Entry(log[i - 1].before, j.target)) == j.expected
  }

  ghost predicate Fine(sha: string -> string, log: Log, i: nat, j: Job)
    requires i < |log|
  {
    log[i].mine ==>
      && SameExcept(log[i].before, log[i].after, {j.target, j.tmp} + BackupPaths(j))
      && (Entry(log[i].before, j.target) != Entry(log[i].after, j.target) ==> InstallsSafely(sha, log, i, j))
  }

  ghost predicate AllFine(sha: string -> string, log: Log, from: nat, j: Job) {
    forall i :: from <= i < |log| ==> Fine(sha, log, i, j)
  }

  lemma FinePhase(sha: string -> string, before: Log, log: Log, from: nat, path: string, j: Job)
    requires from <= |before| && before <= log && AllFine(sha, before, from, j)
    requires path in {j.tmp} + BackupPaths(j) && path != j.target && MineOnlyAt(log, |before|, path)
    ensures AllFine(sha, log, from, j)
  {
    forall i | from <= i < |log| ensures Fine(sha, log, i, j) {
      if i < |before| {
        assert Fine(sha, before, i, j);
        assert log[i] == before[i] && (i > 0 ==> log[i - 1] == before[i - 1]);
      }
    }
  }

  /** The crash guarantee of one state: the target is as it was, or it holds the new text and a
      wanted backup of an existing target already holds the old bytes. Other files are as they were. */
  ghost predicate Safe(f: Files, start: Files, j: Job) {
    && SameExcept(start, f, {j.target, j.tmp} + BackupPaths(j))
    && (Entry(f, j.target) == Entry(start, j.target)
        || (Entry(f, j.target) == Some(j.text)
            && (j.target in start && j.backup.Some? ==> Entry(f, j.backup.value) == Some(start[j.target]))))
  }

  ghost predicate StatesSafe(log: Log, from: nat, start: Files, j: Job) {
    forall i :: from <= i < |log| ==> Safe(log[i].after, start, j)
  }

  lemma FineAfter(sha: string -> string, before: Log, log: Log, from: nat, j: Job)
    requires from <= |before| && before <= log && AllFine(sha, before, from, j) && AllFine(sha, log, |before|, j)
    ensures AllFine(sha, log, from, j)
  {
    forall i | from <= i < |log| ensures Fine(sha, log, i, j) {
      if i < |before| {
        assert Fine(sha, before, i, j);
        assert log[i] == before[i] && (i > 0 ==> log[i - 1] == before[i - 1]);
      }
    }
  }

  lemma SafePhase(before: Log, log: Log, from: nat, base: Files, path: string, start: Files, j: Job)
    requires from <= |before| && before <= log && StatesSafe(before, from, start, j)
    requires SameExcept(start, base, {j.tmp} + BackupPaths(j))
    requires path in {j.tmp} + BackupPaths(j) && j.target !in {j.tmp} + BackupPaths(j)
    requires StatesOnlyAt(log, |before|, base, {path})
    ensures StatesSafe(log, from, start, j)
  {
    forall i | from <= i < |log| ensures Safe(log[i].after, start, j) {
      if i < |before| {
        assert log[i] == before[i];
      } else {
        assert SameExcept(base, log[i].after, {path});
      }
    }
  }

  /** From event `from` on, every state is `base` but for the temporary file and perhaps the new text. */
  ghost predicate StatesInstall(log: Log, from: nat, base: Files, j: Job) {
    forall i :: from <= i < |log| ==>
      && SameExcept(base, log[i].after, {j.target, j.tmp})
      && (Entry(log[i].after, j.target) == Entry(base, j.target) || Entry(log[i].after, j.target) == Some(j.text))
  }

  lemma SafeInstall(before: Log, log: Log, from: nat, base: Files, start: Files, j: Job)
    requires from <= |before| && before <= log && StatesSafe(before, from, start, j)
    requires SameExcept(start, base, {j.tmp} + BackupPaths(j)) && j.target !in {j.tmp} + BackupPaths(j)
    requires j.tmp !in BackupPaths(j)
    requires j.target in start && j.backup.Some? ==> Entry(base, j.backup.value) == Some(start[j.target])
    requires StatesInstall(log, |before|, base, j)
    ensures StatesSafe(log, from, start, j)
  {
    forall i | from <= i < |log| ensures Safe(log[i].after, start, j) {
      if i < |before| {
        assert log[i] == before[i];
      } else {
        assert SameExcept(base, log[i].after, {j.target, j.tmp});
      }
    }
  }

  /** An exclusive creation of a file of this process's own. */
  method CreateOwn(d: Disk, path: string, ghost alone: bool) returns (created: bool)
    requires Private(d.others, path) && d.Linked()
    requires alone ==> Quiet(d.others)
    modifies d
    ensures d.Linked() && d.clock == old(d.clock) + 1
    ensures old(d.log) <= d.log && MineOnlyAt(d.log, |old(d.log)|, path)
    ensures created == (path !in old(d.files)) && (created ==> path in d.files && d.files[path] == "")
    ensures created ==> d.files == d.others(old(d.clock), old(d.files))[path := ""]
    ensures forall x :: x != path && LeaveAlone(d.others, x, old(d.clock), d.clock) ==> Entry(d.files, x) == old(Entry(d.files, x))
    ensures alone ==>
              && StatesOnlyAt(d.log, |old(d.log)|, old(d.files), {path})
              && d.files == if created then old(d.files)[path := ""] else old(d.files)
  {
    ghost var start := d.files;
    created := d.Create(path);
    assert Entry(d.others(old(d.clock), start), path) == Entry(start, path);
  }

  /** The files when the n-th operation creates the copy and the next one reads what is copied. */
  ghost function FilesCopied(others: Others, path: string, n: nat, f: Files): Files {
    others(n + 1, others(n, f)[path := ""])
  }

  /** The exclusive backup: nothing but the backup's own name changes. */
  method TakeBackup(d: Disk, target: string, path: string, ghost alone: bool) returns (taken: bool)
    requires path != target && Private(d.others, path)
    requires alone ==> Quiet(d.others)
    requires d.Linked()
    modifies d
    ensures d.Linked()
    ensures old(d.log) <= d.log && MineOnlyAt(d.log, |old(d.log)|, path) && d.clock >= old(d.clock)
    ensures forall x :: x != path && LeaveAlone(d.others, x, old(d.clock), d.clock) ==> Entry(d.files, x) == old(Entry(d.files, x))
    ensures taken ==> Entry(d.files, path) == Entry(FilesCopied(d.others, path, old(d.clock), old(d.files)), target)
    ensures alone ==>
              && StatesOnlyAt(d.log, |old(d.log)|, old(d.files), {path})
              && SameExcept(old(d.files), d.files, {path})
              && (path in old(d.files) || target !in old(d.files) ==> !taken)
              && (path in old(d.files) ==> d.files == old(d.files))
              && (path !in old(d.files) && target in old(d.files) ==> taken && d.files == old(d.files)[path := old(d.files)[target]])
  {
    taken := CreateOwn(d, path, alone);
    if taken {
      var data := d.Read(target);
      if data.None? { return false; }
      d.Append(path, data.value, alone);
    }
  }

  /** The temporary file, complete. */
  method Stage(d: Disk, path: string, text: string, ghost alone: bool)
    requires path !in d.files && Private(d.others, path)
    requires alone ==> Quiet(d.others)
    requires d.Linked()
    modifies d
    ensures d.Linked()
    ensures path in d.files && d.files[path] == text
    ensures old(d.log) <= d.log && MineOnlyAt(d.log, |old(d.log)|, path) && d.clock == old(d.clock) + 1 + |text|
    ensures forall x :: x != path && LeaveAlone(d.others, x, old(d.clock), d.clock) ==> Entry(d.files, x) == old(Entry(d.files, x))
    ensures alone ==>
              StatesOnlyAt(d.log, |old(d.log)|, old(d.files), {path}) && d.files == old(d.files)[path := text]
  {
    var created := CreateOwn(d, path, alone);
    d.Append(path, text, alone);
  }

  /** The others' n-th act leaves the digest of the path as it is. */
  ghost predicate KeepsDigest(sha: string -> string, others: Others, n: nat, f: Files, path: string) {
    ShaOf(sha, Entry(others(n, f), path)) == ShaOf(sha, Entry(f, path))
  }

  /** A replacing install: the target checked, the others' n-th act, then the text over whatever
      that act left. */
  ghost predicate Replacement(sha: string -> string, others: Others, j: Job, n: nat, checked: Files, install: Event) {
    && ShaOf(sha, Entry(checked, j.target)) == j.expected
    && install.mine && install.before == others(n, checked) && Entry(install.after, j.target) == Some(j.text)
  }

  /** The bytes replaced are those the save was based on. */
  ghost predicate ReplacesExpected(sha: string -> string, j: Job, install: Event) {
    ShaOf(sha, Entry(install.before, j.target)) == j.expected
  }

  /** A backup with a name of its own stays what it is. */
  ghost predicate BackupStays(others: Others, j: Job, before: Files, after: Files) {
    j.backup.Some? && Private(others, j.backup.value) && j.backup.value !in {j.tmp, j.target} ==>
      Entry(after, j.backup.value) == Entry(before, j.backup.value)
  }

  /** The no-replace install of a new file. */
  method InstallNew(d: Disk, sha: string -> string, j: Job, ghost alone: bool) returns (installed: bool)
    requires j.tmp != j.target && Entry(d.files, j.tmp) == Some(j.text) && Private(d.others, j.tmp) && j.expected.None?
    requires alone ==> Quiet(d.others)
    requires d.Linked()
    modifies d
    ensures d.Linked()
    ensures old(d.log) < d.log && d.files == d.log[|d.log| - 1].after && AllFine(sha, d.log, |old(d.log)|, j)
    ensures installed <==> j.target !in d.others(old(d.clock), old(d.files))
    ensures BackupStays(d.others, j, old(d.files), d.files)
    ensures alone ==>
              && d.files == (if installed then old(d.files)[j.target := j.text] else old(d.files)) - {j.tmp}
              && StatesInstall(d.log, |old(d.log)|, old(d.files), j)
  {
    ghost var start, log := d.files, d.log;
    installed := d.Link(j.tmp, j.target);
    assert Entry(d.others(old(d.clock), start), j.tmp) == Entry(start, j.tmp);
    ghost var mid := d.files;
    d.Unlink(j.tmp);
    assert AllFine(sha, d.log, |log|, j) by { NewIsFine(sha, j, log, d.log, start, d.others(old(d.clock), start), mid, d.others(d.clock - 1, mid), installed); }
  }

  /** Linking, if the target is absent, then removing the temporary file. */
  lemma NewIsFine(sha: string -> string, j: Job, log: Log, log1: Log, f: Files, g: Files, mid: Files, h: Files, linked: bool)
    requires j.expected.None? && j.tmp != j.target && (linked ==> j.target !in g && mid == g[j.target := j.text]) && (!linked ==> mid == g)
    requires log1 == log + [Event(false, f, g)] + (if linked then [Event(true, g, mid)] else [])
                     + [Event(false, mid, h), Event(true, h, h - {j.tmp})]
    ensures AllFine(sha, log1, |log|, j)
  {
  }

  /** The final digest check, then the replacing install. */
  method InstallOver(d: Disk, sha: string -> string, j: Job, ghost alone: bool) returns (installed: bool)
    requires j.tmp != j.target && Entry(d.files, j.tmp) == Some(j.text) && Private(d.others, j.tmp) && j.expected.Some?
    requires alone ==> Quiet(d.others)
    requires d.Linked()
    modifies d
    ensures d.Linked()
    ensures old(d.log) < d.log && d.files == d.log[|d.log| - 1].after
    ensures AllFine(sha, d.log, |old(d.log)|, j) && d.clock == old(d.clock) + 2
    ensures BackupStays(d.others, j, old(d.files), d.files)
    ensures installed <==> ShaOf(sha, Entry(d.others(old(d.clock), old(d.files)), j.target)) == j.expected
    ensures installed ==>
              var checked, n, install := d.others(old(d.clock), old(d.files)), old(d.clock) + 1, d.log[|d.log| - 1];
              && Replacement(sha, d.others, j, n, checked, install)
              && (ReplacesExpected(sha, j, install) <==> KeepsDigest(sha, d.others, n, checked, j.target))
    ensures installed ==> Entry(d.files, j.target) == Some(j.text)
    ensures alone ==>
              && d.files == (if installed then old(d.files)[j.target := j.text] else old(d.files)) - {j.tmp}
              && StatesInstall(d.log, |old(d.log)|, old(d.files), j)
  {
    ghost var start, log := d.files, d.log;
    var again := d.Read(j.target);
    ghost var checked := d.files;
    assert Entry(checked, j.tmp) == Entry(start, j.tmp);
    installed := ShaOf(sha, again) == j.expected;
    if installed {
      d.Replace(j.tmp, j.target);
    } else {
      d.Unlink(j.tmp);
    }
    assert AllFine(sha, d.log, |log|, j) by {
      OverIsFine(sha, j, log, d.log, start, checked, d.others(old(d.clock) + 1, checked), installed);
    }
  }

  /** Replacing the target right after an act on files whose target had the expected digest. */
  lemma OverIsFine(sha: string -> string, j: Job, log: Log, log1: Log, f: Files, checked: Files, h: Files, installed: bool)
    requires j.expected.Some? && j.tmp != j.target && (installed ==> ShaOf(sha, Entry(checked, j.target)) == j.expected)
    requires log1 == log + [Event(false, f, checked)]
                     + [Event(false, checked, h), Event(true, h, (if installed then h[j.target := j.text] else h) - {j.tmp})]
    ensures AllFine(sha, log1, |log|, j)
  {
  }

  /** Either install. */
  method Dispatch(d: Disk, sha: string -> string, j: Job, ghost alone: bool)
      returns (installed: bool, ghost checked: Files, ghost act: nat)
    requires j.tmp != j.target && Entry(d.files, j.tmp) == Some(j.text) && Private(d.others, j.tmp)
    requires alone ==> Quiet(d.others)
    requires d.Linked()
    modifies d
    ensures d.Linked()
    ensures old(d.log) < d.log && d.files == d.log[|d.log| - 1].after && AllFine(sha, d.log, |old(d.log)|, j)
    ensures alone ==>
              && StatesInstall(d.log, |old(d.log)|, old(d.files), j)
              && (installed <==> if j.expected.None? then j.target !in old(d.files)
                                 else ShaOf(sha, Entry(old(d.files), j.target)) == j.expected)
              && d.files == (if installed then old(d.files)[j.target := j.text] else old(d.files)) - {j.tmp}
    ensures checked == d.others(old(d.clock), old(d.files))
    ensures BackupStays(d.others, j, old(d.files), d.files)
    ensures j.expected.Some? && installed ==>
              && Replacement(sha, d.others, j, act, checked, d.log[|d.log| - 1])
              && Entry(d.files, j.target) == Some(j.text)
    ensures j.expected.Some? ==> d.clock == old(d.clock) + 2 == act + 1
    ensures j.expected.Some? ==> (installed <==> ShaOf(sha, Entry(checked, j.target)) == j.expected)
  {
    checked, act := d.others(d.clock, d.files), d.clock + 1;
    if j.expected.None? {
      installed := InstallNew(d, sha, j, alone);
    } else {
      installed := InstallOver(d, sha, j, alone);
    }
  }

  /** Install the staged text, over nothing or over the expected content. */
  method Install(d: Disk, sha: string -> string, j: Job, ghost from: nat, ghost start: Files, ghost alone: bool)
      returns (installed: bool, ghost checked: Files, ghost act: nat)
    requires j.target !in {j.tmp} + BackupPaths(j) && j.tmp !in BackupPaths(j)
    requires Entry(d.files, j.tmp) == Some(j.text) && Private(d.others, j.tmp)
    requires from <= |d.log| && AllFine(sha, d.log, from, j)
    requires alone ==>
               && StatesSafe(d.log, from, start, j) && SameExcept(start, d.files, {j.tmp} + BackupPaths(j))
               && (j.target in start && j.backup.Some? ==> Entry(d.files, j.backup.value) == Some(start[j.target]))
    requires alone ==> Quiet(d.others)
    requires d.Linked()
    modifies d
    ensures d.Linked()
    ensures old(d.log) < d.log && d.files == d.log[|d.log| - 1].after && AllFine(sha, d.log, from, j)
    ensures alone ==>
              && StatesSafe(d.log, from, start, j)
              && (installed <==> if j.expected.None? then j.target !in old(d.files)
                                 else ShaOf(sha, Entry(old(d.files), j.target)) == j.expected)
              && d.files == (if installed then old(d.files)[j.target := j.text] else old(d.files)) - {j.tmp}
    ensures checked == d.others(old(d.clock), old(d.files))
    ensures BackupStays(d.others, j, old(d.files), d.files)
    ensures installed && j.expected.Some? ==>
              && Replacement(sha, d.others, j, act, checked, d.log[|d.log| - 1])
              && Entry(d.files, j.target) == Some(j.text)
    ensures j.expected.Some? ==> d.clock == old(d.clock) + 2 == act + 1
    ensures j.expected.Some? ==> (installed <==> ShaOf(sha, Entry(checked, j.target)) == j.expected)
  {
    ghost var log, files := d.log, d.files;
    installed, checked, act := Dispatch(d, sha, j, alone);
    assert AllFine(sha, d.log, from, j) by { FineAfter(sha, log, d.log, from, j); }
    if alone { SafeInstall(log, d.log, from, files, start, j); }
  }

  /** The temporary file of a job: no state of it touches the target. */
  method StageFor(d: Disk, sha: string -> string, j: Job, ghost from: nat, ghost start: Files, ghost alone: bool)
    requires Owned(d, j) && from <= |d.log| && AllFine(sha, d.log, from, j)
    requires alone ==> StatesSafe(d.log, from, start, j) && SameExcept(start, d.files, BackupPaths(j))
    requires alone ==> Quiet(d.others)
    requires d.Linked()
    modifies d
    ensures d.Linked()
    ensures old(d.log) <= d.log && AllFine(sha, d.log, from, j) && d.clock == old(d.clock) + 1 + |j.text|
    ensures Entry(d.files, j.tmp) == Some(j.text)
    ensures BackupStays(d.others, j, old(d.files), d.files)
    ensures LeaveAlone(d.others, j.target, old(d.clock), d.clock) ==> Entry(d.files, j.target) == old(Entry(d.files, j.target))
    ensures alone ==> StatesSafe(d.log, from, start, j) && d.files == old(d.files)[j.tmp := j.text]
  {
    ghost var log, files := d.log, d.files;
    Stage(d, j.tmp, j.text, alone);
    FinePhase(sha, log, d.log, from, j.tmp, j);
    if alone { SafePhase(log, d.log, from, files, j.tmp, start, j); }
  }

  /** Stage the text, then install it. */
  method Publish(d: Disk, sha: string -> string, j: Job, ghost from: nat, ghost start: Files, ghost alone: bool)
      returns (installed: bool, ghost checked: Files, ghost act: nat)
    requires Owned(d, j) && from <= |d.log| && AllFine(sha, d.log, from, j)
    requires alone ==>
               && StatesSafe(d.log, from, start, j) && SameExcept(start, d.files, BackupPaths(j))
               && (j.target in start && j.backup.Some? ==> Entry(d.files, j.backup.value) == Some(start[j.target]))
    requires alone ==> Quiet(d.others)
    requires d.Linked()
    modifies d
    ensures d.Linked()
    ensures old(d.log) < d.log && d.files == d.log[|d.log| - 1].after && AllFine(sha, d.log, from, j)
    ensures alone ==>
              && StatesSafe(d.log, from, start, j)
              && (installed <==> if j.expected.None? then j.target !in old(d.files)
                                 else ShaOf(sha, Entry(old(d.files), j.target)) == j.expected)
              && d.files == if installed then old(d.files)[j.target := j.text] else old(d.files)
    ensures installed && j.expected.Some? ==>
              && Replacement(sha, d.others, j, act, checked, d.log[|d.log| - 1])
              && Entry(d.files, j.target) == Some(j.text)
    ensures j.expected.Some? ==> d.clock == old(d.clock) + |j.text| + 3 == act + 1
    ensures BackupStays(d.others, j, old(d.files), d.files)
    ensures j.expected.Some? && LeaveAlone(d.others, j.target, old(d.clock), d.clock - 1)
            && ShaOf(sha, Entry(old(d.files), j.target)) == j.expected
            ==> installed
  {
    ghost var files := d.files;
    StageFor(d, sha, j, from, start, alone);
    assert alone ==> d.files == files[j.tmp := j.text];
    installed, checked, act := Install(d, sha, j, from, start, alone);
  }

  function WithBackup(f: Files, j: Job): Files {
    if j.target in f && j.backup.Some? then f[j.backup.value := f[j.target]] else f
  }

  /** What a save comes to when no other process acts. */
  function SavedAlone(sha: string -> string, f: Files, validated: bool, j: Job): (Outcome, Files) {
    if !validated then (Invalid, f)
    else if ShaOf(sha, Entry(f, j.target)) != j.expected then (ConcurrentlyModified, f)
    else if j.target in f && j.backup.Some? && j.backup.value in f then (BackupFailed, f)
    else (Saved(if j.target in f then j.backup else None, true), WithBackup(f, j)[j.target := j.text])
  }

  /** A save alone succeeds exactly when the text is valid, the target has the expected digest, and no
      file is in the way of a backup to take. Then the target has the text, the backup what the target
      had, and nothing else is different; otherwise nothing is. */
  lemma SavedAloneDoes(sha: string -> string, f: Files, validated: bool, j: Job)
    ensures var (outcome, f1) := SavedAlone(sha, f, validated, j);
            var expected := ShaOf(sha, Entry(f, j.target)) == j.expected;
            var inTheWay := j.target in f && j.backup.Some? && j.backup.value in f;
            && (outcome.Invalid? <==> !validated)
            && (outcome.ConcurrentlyModified? <==> validated && !expected)
            && (outcome.BackupFailed? <==> validated && expected && inTheWay)
            && (outcome.Saved? <==> validated && expected && !inTheWay)
            && (outcome.Saved? ==>
                  && outcome.verified && outcome.backup == (if j.target in f then j.backup else None)
                  && SameExcept(f, f1, {j.target} + BackupPaths(j)) && Entry(f1, j.target) == Some(j.text)
                  && (j.backup.Some? && j.backup.value != j.target ==>
                        Entry(f1, j.backup.value) == if j.target in f then Some(f[j.target]) else Entry(f, j.backup.value)))
            && (!outcome.Saved? ==> f1 == f)
  {
  }

  /** The target when the backup is copied from it, after the first digest check as the n-th operation. */
  ghost function CopiedContent(others: Others, j: Job, n: nat, f: Files): Option<string>
    requires j.backup.Some?
  {
    Entry(FilesCopied(others, j.backup.value, n + 1, others(n, f)), j.target)
  }

  /** The backup holds the target as it was when copied; it holds the expected bytes exactly when the
      two acts of the others since the first digest check keep the target's digest. */
  ghost predicate BackupHolds(sha: string -> string, others: Others, j: Job, n: nat, f: Files, after: Files)
    requires j.backup.Some?
  {
    var held := Entry(after, j.backup.value);
    && held == CopiedContent(others, j, n, f)
    && (ShaOf(sha, held) == j.expected
        <==> ShaOf(sha, CopiedContent(others, j, n, f)) == ShaOf(sha, Entry(others(n, f), j.target)))
  }

  /** The digest check and the backup: `failed` is what stops the save here, if anything does. */
  method Prepare(d: Disk, sha: string -> string, j: Job, ghost alone: bool) returns (failed: Option<Outcome>, backup: Option<string>)
    requires Owned(d, j)
    requires alone ==> Quiet(d.others)
    requires d.Linked()
    modifies d
    ensures d.Linked()
    ensures Owned(d, j) && old(d.log) <= d.log && AllFine(sha, d.log, |old(d.log)|, j)
    ensures alone ==> StatesSafe(d.log, |old(d.log)|, old(d.files), j)
    ensures alone && failed.Some? ==>
              (failed.value, d.files) == SavedAlone(sha, old(d.files), true, j)
    ensures alone && failed.None? ==>
              && ShaOf(sha, Entry(old(d.files), j.target)) == j.expected
              && d.files == WithBackup(old(d.files), j) && SavedAlone(sha, old(d.files), true, j).0 == Saved(backup, true)
    ensures failed.Some? ==> !failed.value.Saved?
    ensures backup.Some? ==> backup == j.backup && BackupHolds(sha, d.others, j, old(d.clock), old(d.files), d.files)
    ensures j.backup.None? && ShaOf(sha, Entry(old(d.files), j.target)) == j.expected
            && LeaveAlone(d.others, j.target, old(d.clock), old(d.clock) + 1)
            ==> failed.None? && d.clock == old(d.clock) + 1 && Entry(d.files, j.target) == old(Entry(d.files, j.target))
  {
    ghost var start, from := d.files, |d.log|;
    var current := d.Read(j.target);
    assert Entry(d.files, j.tmp) == Entry(start, j.tmp);
    if ShaOf(sha, current) != j.expected { return Some(ConcurrentlyModified), None; }
    if current.None? || j.backup.None? { return None, None; }
    ghost var log1 := d.log;
    var taken := TakeBackup(d, j.target, j.backup.value, alone);
    FinePhase(sha, log1, d.log, from, j.backup.value, j);
    if alone { SafePhase(log1, d.log, from, start, j.backup.value, start, j); }
    if !taken { return Some(BackupFailed), None; }
    return None, j.backup;
  }

  /** Read the target back. */
  method Confirm(d: Disk, sha: string -> string, j: Job, ghost from: nat, ghost start: Files, ghost alone: bool) returns (verified: bool)
    requires from <= |d.log| && AllFine(sha, d.log, from, j)
    requires alone ==> |d.log| > 0 && d.files == d.log[|d.log| - 1].after && from < |d.log| && StatesSafe(d.log, from, start, j)
    requires alone ==> Quiet(d.others)
    requires d.Linked()
    modifies d
    ensures d.Linked()
    ensures old(d.log) <= d.log && |d.log| == |old(d.log)| + 1
    ensures AllFine(sha, d.log, from, j) && d.clock == old(d.clock) + 1
    ensures BackupStays(d.others, j, old(d.files), d.files)
    ensures Entry(old(d.files), j.target) == Some(j.text) && LeaveAlone(d.others, j.target, old(d.clock), d.clock) ==>
              verified && Entry(d.files, j.target) == Some(j.text)
    ensures alone ==>
              && d.files == old(d.files) && StatesSafe(d.log, from, start, j)
              && verified == (ShaOf(sha, Entry(d.files, j.target)) == Some(sha(j.text)))
  {
    ghost var log := d.log;
    var saved := d.Read(j.target);
    FineAfter(sha, log, d.log, from, j);
    verified := ShaOf(sha, saved) == Some(sha(j.text));
    if alone { assert Safe(log[|log| - 1].after, start, j); }
  }

  /** A replacement replaces the expected bytes exactly when the others' act before it keeps their digest. */
  lemma ReplacesExactly(sha: string -> string, others: Others, j: Job, act: nat, checked: Files, install: Event)
    requires Replacement(sha, others, j, act, checked, install)
    ensures ReplacesExpected(sha, j, install) <==> KeepsDigest(sha, others, act, checked, j.target)
  {
  }

  /** Publish the text, then read the target back. */
  method Finish(d: Disk, sha: string -> string, j: Job, backup: Option<string>, ghost from: nat, ghost start: Files, ghost alone: bool)
      returns (r: Outcome, ghost checked: Files, ghost act: nat, ghost install: Event)
    requires Owned(d, j) && from <= |d.log| && AllFine(sha, d.log, from, j)
    requires alone ==>
               && StatesSafe(d.log, from, start, j) && SameExcept(start, d.files, BackupPaths(j))
               && (j.target in start && j.backup.Some? ==> Entry(d.files, j.backup.value) == Some(start[j.target]))
    requires alone ==> Quiet(d.others)
    requires d.Linked()
    modifies d
    ensures d.Linked() && old(d.log) <= d.log && AllFine(sha, d.log, from, j)
    ensures BackupStays(d.others, j, old(d.files), d.files)
    ensures r == ConcurrentlyModified || (r.Saved? && r.backup == backup)
    ensures r.Saved? && j.expected.Some? ==>
              && act + 2 == d.clock && |d.log| >= 2 && d.log[|d.log| - 2] == install
              && Replacement(sha, d.others, j, act, checked, install)
              && (ReplacesExpected(sha, j, install) <==> KeepsDigest(sha, d.others, act, checked, j.target))
    ensures alone ==>
              && StatesSafe(d.log, from, start, j)
              && (r.Saved? <==> if j.expected.None? then j.target !in old(d.files)
                                else ShaOf(sha, Entry(old(d.files), j.target)) == j.expected)
              && d.files == (if r.Saved? then old(d.files)[j.target := j.text] else old(d.files))
              && (r.Saved? ==> r.verified)
    ensures j.expected.Some? && ShaOf(sha, Entry(old(d.files), j.target)) == j.expected
            && LeaveAlone(d.others, j.target, old(d.clock), old(d.clock) + |j.text| + 2)
            && LeaveAlone(d.others, j.target, old(d.clock) + |j.text| + 3, old(d.clock) + |j.text| + 4)
            ==> r == Saved(backup, true) && Entry(d.files, j.target) == Some(j.text)
                && d.clock == old(d.clock) + |j.text| + 4
  {
    var installed;
    installed, checked, act := Publish(d, sha, j, from, start, alone);
    install := d.log[|d.log| - 1];
    if !installed { return ConcurrentlyModified, checked, act, install; }
    if j.expected.Some? { ReplacesExactly(sha, d.others, j, act, checked, install); }
    ghost var files := d.files;
    var verified := Confirm(d, sha, j, from, start, alone);
    assert alone ==> d.files == files;
    return Saved(backup, verified), checked, act, install;
  }

  /** `save_draft`. Whatever the others do, a new file never replaces an existing one, and a
      replacement only ever follows a matching digest check: it replaces the expected bytes exactly
      when the one act of the others after that check keeps the target's digest. Alone, every state
      is safe. */
  method SaveDraft(d: Disk, sha: string -> string, validated: bool, j: Job, ghost alone: bool)
      returns (r: Outcome, ghost checked: Files, ghost act: nat, ghost install: Event)
    requires Owned(d, j)
    requires alone ==> Quiet(d.others)
    requires d.Linked()
    modifies d
    ensures d.Linked()
    ensures old(d.log) <= d.log && AllFine(sha, d.log, |old(d.log)|, j)
    ensures alone ==> (r, d.files) == SavedAlone(sha, old(d.files), validated, j)
    ensures alone ==> StatesSafe(d.log, |old(d.log)|, old(d.files), j)
    ensures r.Saved? && j.expected.Some? ==>
              && act + 2 == d.clock && |d.log| >= 2 && d.log[|d.log| - 2] == install
              && Replacement(sha, d.others, j, act, checked, install)
              && (ReplacesExpected(sha, j, install) <==> KeepsDigest(sha, d.others, act, checked, j.target))
    ensures r.Saved? && r.backup.Some? ==>
              r.backup == j.backup && BackupHolds(sha, d.others, j, old(d.clock), old(d.files), d.files)
    ensures validated && j.expected.Some? && j.backup.None? && ShaOf(sha, Entry(old(d.files), j.target)) == j.expected
            && LeaveAlone(d.others, j.target, old(d.clock), old(d.clock) + |j.text| + 3)
            && LeaveAlone(d.others, j.target, old(d.clock) + |j.text| + 4, old(d.clock) + |j.text| + 5)
            ==> r == Saved(None, true) && Entry(d.files, j.target) == Some(j.text)
                && d.clock == old(d.clock) + |j.text| + 5
  {
    checked, act, install := d.files, 0, Event(false, d.files, d.files);
    if !validated { return Invalid, checked, act, install; }
    ghost var start, from := d.files, |d.log|;
    var failed, backup := Prepare(d, sha, j, alone);
    if failed.Some? { return failed.value, checked, act, install; }
    r, checked, act, install := Finish(d, sha, j, backup, from, start, alone);
  }

  /** The others' n-th act writes the path. */
  ghost predicate Writes(others: Others, n: nat, path: string, content: string) {
    forall f :: others(n, f) == f[path := content]
  }

  /** The window between the last digest check and the replacement: whatever another process writes
      there is replaced, no backup holds it, and the save reports a verified success. */
  method LostUpdate(sha: string -> string, before: string, text: string, theirs: string) returns (d: Disk, r: Outcome)
    ensures r == Saved(None, true) && Entry(d.files, "target") == Some(text)
    ensures exists n: nat :: n < d.clock && Writes(d.others, n, "target", theirs)
  {
    var window := |text| + 3;
    d := new Disk(map["target" := before], (n: nat, f: Files) => if n == window then f["target" := theirs] else f);
    var j := Job("target", "tmp", text, Some(sha(before)), None);
    ghost var checked, act, install;
    r, checked, act, install := SaveDraft(d, sha, true, j, false);
    assert Writes(d.others, window, "target", theirs);
  }

  // ---- Restoring ----

  datatype Restoring = BadBackup | TargetModified | Failed | Done

  /** One restore: the backup, the target, the temporary name, the digest the target is expected to
      have, and where to copy the target first if wanted. */
  datatype RestoreJob = RestoreJob(backup: string, target: string, tmp: string, expected: Option<string>, copy: Option<string>)

  /** A restore publishes the backup's bytes, as a save publishes its text. */
  function AsJob(j: RestoreJob, bytes: string): Job {
    Job(j.target, j.tmp, bytes, j.expected, j.copy)
  }

  /** What a restore comes to when no other process acts. */
  function RestoredAlone(sha: string -> string, loads: string -> bool, f: Files, j: RestoreJob): (Restoring, Files) {
    if j.backup !in f || !loads(f[j.backup]) then (BadBackup, f)
    else if ShaOf(sha, Entry(f, j.target)) != j.expected then (TargetModified, f)
    else if j.target !in f && j.copy.Some? then (Failed, f)
    else (Done, WithBackup(f, AsJob(j, f[j.backup]))[j.target := f[j.backup]])
  }

  /** A restore alone succeeds exactly when the backup is there and loads, the target has the expected
      digest, and is there if a copy of it is wanted. Then the target has the backup's bytes, the copy
      what the target had, and nothing else is different; otherwise nothing is. */
  lemma RestoredAloneDoes(sha: string -> string, loads: string -> bool, f: Files, j: RestoreJob)
    ensures var (outcome, f1) := RestoredAlone(sha, loads, f, j);
            var good := j.backup in f && loads(f[j.backup]);
            var expected := ShaOf(sha, Entry(f, j.target)) == j.expected;
            && (outcome == BadBackup <==> !good)
            && (outcome == TargetModified <==> good && !expected)
            && (outcome == Failed <==> good && expected && j.target !in f && j.copy.Some?)
            && (outcome == Done <==> good && expected && (j.target in f || j.copy.None?))
            && (outcome == Done ==>
                  && SameExcept(f, f1, {j.target} + (if j.copy.Some? then {j.copy.value} else {}))
                  && Entry(f1, j.target) == Some(f[j.backup])
                  && (j.copy.Some? && j.copy.value != j.target ==> Entry(f1, j.copy.value) == Entry(f, j.target)))
            && (outcome != Done ==> f1 == f)
  {
  }

  /** From event `from` up to event `until`, this process does not touch the path. */
  ghost predicate MineSpare(log: Log, from: nat, until: int, path: string) {
    forall i :: from <= i < until && i < |log| && log[i].mine ==> Entry(log[i].before, path) == Entry(log[i].after, path)
  }

  lemma {:induction false} SparedBetween(log: Log, from: nat, until: nat, path: string)
    requires 0 < from <= until < |log| && Chained(log) && MineSpare(log, from, until, path)
    requires forall i :: from <= i < until && !log[i].mine ==> Entry(log[i].before, path) == Entry(log[i].after, path)
    ensures Entry(log[until].before, path) == Entry(log[from - 1].after, path)
    decreases until
  {
    if from < until {
      SparedBetween(log, from, until - 1, path);
      assert log[until - 1].after == log[until].before;
    } else {
      assert log[from - 1].after == log[from].before;
    }
  }

  /** `shutil.copy2`, onto a name of this process's own. */
  method CopyOver(d: Disk, source: string, path: string, ghost alone: bool) returns (copied: bool)
    requires path != source && Private(d.others, path)
    requires alone ==> Quiet(d.others)
    requires d.Linked()
    modifies d
    ensures d.Linked()
    ensures old(d.log) <= d.log && MineOnlyAt(d.log, |old(d.log)|, path)
    ensures forall x :: x != path && Private(d.others, x) ==> Entry(d.files, x) == old(Entry(d.files, x))
    ensures alone ==>
              && StatesOnlyAt(d.log, |old(d.log)|, old(d.files), {path})
              && copied == (source in old(d.files))
              && d.files == if copied then old(d.files)[path := old(d.files)[source]] else old(d.files)
  {
    var data := d.Read(source);
    copied := data.Some?;
    if copied {
      d.Become(d.files[path := ""]);
      d.Append(path, data.value, alone);
    }
  }

  /** Create the copy, then read the source. */
  method OpenCopy(d: Disk, source: string, path: string, ghost alone: bool) returns (data: Option<string>)
    requires path != source && path !in d.files && Private(d.others, path)
    requires alone ==> Quiet(d.others)
    requires d.Linked()
    modifies d
    ensures d.Linked()
    ensures old(d.log) <= d.log && MineOnlyAt(d.log, |old(d.log)|, path) && d.clock == old(d.clock) + 2
    ensures path in d.files && d.files[path] == ""
    ensures LeaveAlone(d.others, source, old(d.clock), old(d.clock) + 2) ==> data == Entry(old(d.files), source)
    ensures alone ==>
              && StatesOnlyAt(d.log, |old(d.log)|, old(d.files), {path})
              && d.files == old(d.files)[path := ""] && data == Entry(old(d.files), source)
  {
    var created := CreateOwn(d, path, alone);
    ghost var mid := d.files;
    data := d.Read(source);
    assert Entry(d.files, path) == Entry(mid, path);
  }

  /** A temporary copy of the backup, as it is now. */
  method StageCopy(d: Disk, source: string, path: string, ghost alone: bool) returns (staged: bool)
    requires path != source && path !in d.files && Private(d.others, path)
    requires alone ==> Quiet(d.others)
    requires d.Linked()
    modifies d
    ensures d.Linked()
    ensures old(d.log) <= d.log && MineOnlyAt(d.log, |old(d.log)|, path)
    ensures staged ==> path in d.files
    ensures source in old(d.files) && LeaveAlone(d.others, source, old(d.clock), old(d.clock) + 2) ==>
              staged && d.files[path] == old(d.files)[source] && d.clock == old(d.clock) + 2 + |old(d.files)[source]|
    ensures alone && source in old(d.files) ==>
              staged && StatesOnlyAt(d.log, |old(d.log)|, old(d.files), {path}) && d.files == old(d.files)[path := old(d.files)[source]]
  {
    var data := OpenCopy(d, source, path, alone);
    staged := data.Some?;
    if staged {
      d.Append(path, data.value, alone);
    } else {
      d.Unlink(path);
    }
  }

  /** `restore_backup`, once nothing stands in its way: there is no second digest check. */
  method PublishBackup(d: Disk, j: RestoreJob, ghost bytes: string, ghost from: nat, ghost start: Files, ghost alone: bool)
      returns (done: bool)
    requires Owned(d, AsJob(j, bytes)) && j.backup != j.tmp && from <= |d.log|
    requires alone ==>
               && Quiet(d.others) && Entry(d.files, j.backup) == Some(bytes)
               && StatesSafe(d.log, from, start, AsJob(j, bytes)) && SameExcept(start, d.files, BackupPaths(AsJob(j, bytes)))
               && (j.target in start && j.copy.Some? ==> Entry(d.files, j.copy.value) == Some(start[j.target]))
    requires d.Linked()
    modifies d
    ensures d.Linked()
    ensures old(d.log) <= d.log && MineSpare(d.log, |old(d.log)|, if done then |d.log| - 1 else |d.log|, j.target)
    ensures done ==> |old(d.log)| < |d.log| && d.log[|d.log| - 1].mine && j.target in d.files
    ensures Entry(old(d.files), j.backup) == Some(bytes) && LeaveAlone(d.others, j.backup, old(d.clock), old(d.clock) + 2) ==>
              done && Entry(d.files, j.target) == Some(bytes) && d.clock == old(d.clock) + 3 + |bytes|
    ensures alone ==>
              && done && StatesSafe(d.log, from, start, AsJob(j, bytes)) && d.files == old(d.files)[j.target := bytes]
  {
    ghost var log0, files0 := d.log, d.files;
    var staged := StageCopy(d, j.backup, j.tmp, alone);
    if !staged { return false; }
    assert alone ==> StatesSafe(d.log, from, start, AsJob(j, bytes)) by {
      if alone { SafePhase(log0, d.log, from, files0, j.tmp, start, AsJob(j, bytes)); }
    }
    ghost var log1, files1 := d.log, d.files;
    d.Replace(j.tmp, j.target);
    assert alone ==> StatesSafe(d.log, from, start, AsJob(j, bytes)) by {
      if alone { SafeInstall(log1, d.log, from, files1, start, AsJob(j, bytes)); }
    }
    return true;
  }

  /** The copy of the target, if one is wanted. */
  method CopyFirst(d: Disk, j: RestoreJob, ghost bytes: string, ghost from: nat, ghost start: Files, ghost alone: bool)
      returns (copied: bool)
    requires Owned(d, AsJob(j, bytes)) && j.backup !in BackupPaths(AsJob(j, bytes)) && from <= |d.log|
    requires alone ==> Quiet(d.others) && d.files == start && StatesSafe(d.log, from, start, AsJob(j, bytes))
    requires d.Linked()
    modifies d
    ensures d.Linked() && Owned(d, AsJob(j, bytes))
    ensures old(d.log) <= d.log && MineSpare(d.log, |old(d.log)|, |d.log|, j.target)
    ensures j.copy.None? ==> copied && d.files == old(d.files) && d.clock == old(d.clock)
    ensures alone ==>
              && StatesSafe(d.log, from, start, AsJob(j, bytes))
              && copied == (j.copy.None? || j.target in start)
              && d.files == if copied then WithBackup(start, AsJob(j, bytes)) else start
  {
    if j.copy.None? { return true; }
    ghost var log := d.log;
    copied := CopyOver(d, j.target, j.copy.value, alone);
    if alone { SafePhase(log, d.log, from, start, j.copy.value, start, AsJob(j, bytes)); }
  }

  /** The checks a restore starts with: the backup loads, then the target has the expected digest. */
  method CheckRestore(d: Disk, sha: string -> string, loads: string -> bool, j: RestoreJob, ghost alone: bool)
      returns (failed: Option<Restoring>, bytes: string)
    requires Owned(d, AsJob(j, "")) && d.Linked()
    requires alone ==> Quiet(d.others)
    modifies d
    ensures Owned(d, AsJob(j, "")) && d.Linked()
    ensures old(d.log) <= d.log && forall i :: |old(d.log)| <= i < |d.log| ==> !d.log[i].mine
    ensures alone ==> d.files == old(d.files) && forall job: Job :: StatesSafe(d.log, |old(d.log)|, old(d.files), job)
    ensures var seen := d.others(old(d.clock), old(d.files));
            if j.backup !in seen || !loads(seen[j.backup]) then failed == Some(BadBackup) && d.files == seen
            else
              && bytes == seen[j.backup] && d.files == d.others(old(d.clock) + 1, seen) && d.clock == old(d.clock) + 2
              && |d.log| == |old(d.log)| + 2
              && failed == if ShaOf(sha, Entry(d.files, j.target)) != j.expected then Some(TargetModified) else None
  {
    ghost var start := d.files;
    var data := d.Read(j.backup);
    assert Entry(d.files, j.tmp) == Entry(start, j.tmp);
    if data.None? || !loads(data.value) { return Some(BadBackup), ""; }
    ghost var seen := d.files;
    var current := d.Read(j.target);
    assert Entry(d.files, j.tmp) == Entry(seen, j.tmp);
    return if ShaOf(sha, current) != j.expected then Some(TargetModified) else None, data.value;
  }

  /** `restore_backup`. Whatever the others do, this process touches the target only in its last
      change, after one digest check: between the two only the others decide what is replaced. */
  method RestoreBackup(d: Disk, sha: string -> string, loads: string -> bool, j: RestoreJob, ghost alone: bool)
      returns (r: Restoring, ghost at: nat)
    requires Owned(d, AsJob(j, "")) && j.backup != j.tmp && j.backup !in BackupPaths(AsJob(j, ""))
    requires alone ==> Quiet(d.others)
    requires d.Linked()
    modifies d
    ensures d.Linked()
    ensures old(d.log) <= d.log
    ensures r != Done ==> MineSpare(d.log, |old(d.log)|, |d.log|, j.target)
    ensures r == Done ==>
              && |old(d.log)| < at < |d.log| && MineSpare(d.log, |old(d.log)|, |d.log| - 1, j.target)
              && ShaOf(sha, Entry(d.log[at - 1].after, j.target)) == j.expected
              && d.log[|d.log| - 1].mine && j.target in d.files
    ensures j.copy.None? && j.backup in old(d.files) && loads(old(d.files)[j.backup])
            && LeaveAlone(d.others, j.backup, old(d.clock), old(d.clock) + 4)
            && LeaveAlone(d.others, j.target, old(d.clock), old(d.clock) + 2)
            && ShaOf(sha, Entry(old(d.files), j.target)) == j.expected
            ==> r == Done && Entry(d.files, j.target) == Some(old(d.files)[j.backup])
                && d.clock == old(d.clock) + 5 + |old(d.files)[j.backup]|
    ensures alone ==> (r, d.files) == RestoredAlone(sha, loads, old(d.files), j)
    ensures alone && j.backup in old(d.files) ==>
              StatesSafe(d.log, |old(d.log)|, old(d.files), AsJob(j, old(d.files)[j.backup]))
  {
    ghost var start, from := d.files, |d.log|;
    var failed, bytes := CheckRestore(d, sha, loads, j, alone);
    at := |d.log|;
    if failed.Some? { return failed.value, at; }
    var copied := CopyFirst(d, j, bytes, from, start, alone);
    if !copied { return Failed, at; }
    var done := PublishBackup(d, j, bytes, from, start, alone);
    return if done then Done else Failed, at;
  }

  /** Only the others can make a restore replace bytes it never checked. */
  lemma RestoreLosesOnlyToOthers(sha: string -> string, log: Log, at: nat, path: string)
    requires 0 < at < |log| && Chained(log) && MineSpare(log, at, |log| - 1, path)
    requires ShaOf(sha, Entry(log[|log| - 1].before, path)) != ShaOf(sha, Entry(log[at - 1].after, path))
    ensures exists i :: at <= i < |log| - 1 && !log[i].mine && Entry(log[i].before, path) != Entry(log[i].after, path)
  {
    if forall i :: at <= i < |log| - 1 && !log[i].mine ==> Entry(log[i].before, path) == Entry(log[i].after, path) {
      SparedBetween(log, at, |log| - 1, path);
      assert false;
    }
  }

  /** If at most one act of the others in the window touches the target, the restore replaces what it
      checked exactly when that act keeps the target's digest. */
  lemma OneActDecides(sha: string -> string, log: Log, at: nat, act: nat, path: string)
    requires 0 < at <= act < |log| - 1 && Chained(log) && MineSpare(log, at, |log| - 1, path)
    requires forall i :: at <= i < |log| - 1 && i != act && !log[i].mine ==> Entry(log[i].before, path) == Entry(log[i].after, path)
    ensures ShaOf(sha, Entry(log[|log| - 1].before, path)) == ShaOf(sha, Entry(log[at - 1].after, path)) <==>
              ShaOf(sha, Entry(log[act].after, path)) == ShaOf(sha, Entry(log[act].before, path))
  {
    SparedBetween(log, at, act, path);
    SparedBetween(log, act + 1, |log| - 1, path);
  }

  /** The window of a restore reaches from its one check to its replacement: what another process
      writes there is replaced. */
  method RestoreLosesUpdate(sha: string -> string, bytes: string, before: string, theirs: string)
      returns (d: Disk, r: Restoring)
    ensures r == Done && Entry(d.files, "target") == Some(bytes)
    ensures exists n: nat :: n < d.clock && Writes(d.others, n, "target", theirs)
  {
    var window := 2;
    d := new Disk(map["target" := before, "backup" := bytes],
                  (n: nat, f: Files) => if n == window then f["target" := theirs] else f);
    var j := RestoreJob("backup", "target", "tmp", Some(sha(before)), None);
    ghost var at;
    r, at := RestoreBackup(d, sha, text => true, j, false);
    assert Writes(d.others, window, "target", theirs);
  }

  /** A save with a backup, then a restore of that backup: the original bytes come back exactly when
      they load as a configuration. */
  lemma BackupRestoresOriginal(
      sha: string -> string, loads: string -> bool, f: Files, j: Job, tmp: string, copy: Option<string>)
    requires j.target in f && j.backup.Some? && j.backup.value !in f && j.backup.value != j.target
    requires j.expected == Some(sha(f[j.target])) && copy != j.backup && copy != Some(j.target)
    ensures var saved := SavedAlone(sha, f, true, j);
            var restored := RestoredAlone(sha, loads, saved.1, RestoreJob(j.backup.value, j.target, tmp, Some(sha(j.text)), copy));
            && saved.0 == Saved(j.backup, true) && Entry(saved.1, j.target) == Some(j.text)
            && (restored.0 == Done <==> loads(f[j.target]))
            && Entry(restored.1, j.target) == if loads(f[j.target]) then Some(f[j.target]) else Some(j.text)
  {
    assert WithBackup(f, j)[j.target] == f[j.target];
  }
}
