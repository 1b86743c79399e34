/** Crash recovery of the editor (`configurator/web/session.py`, `configurator/draft.py`,
    `configurator/sidecar.py`): three files published one after the other, any of which may be cut
    short, and a resume that accepts them only if their digests agree. */
module Recovery {
  import opened Wrappers
  import opened ControlModel
  import opened ConfigParser
  import opened ConfigRoundTrip
  import opened Serializer

  // ---- Formats ----

  datatype Sidecar = Sidecar(draftSha: string, count: nat)

  datatype Manifest = Manifest(
    version: int, source: string, baseSha: string, draftSha: string, sidecarSha: Option<string>)

  /** The digest, the configuration text and the two JSON formats. */
  datatype Codec = Codec(
    sha: string -> string,
    canonical: LayeredControlConfig -> string, load: string -> Option<LayeredControlConfig>,
    sidecar: (Sidecar, string) -> string, readSidecar: string -> Option<Sidecar>,
    manifest: Manifest -> string, readManifest: string -> Option<Manifest>)

  /** Digests do not collide, both formats read back, and a manifest cut short is not JSON. */
  ghost predicate Sound(c: Codec) {
    && (forall s :: c.sha(s) != "")
    && (forall s, t :: c.sha(s) == c.sha(t) ==> s == t)
    && (forall x, now :: c.readSidecar(c.sidecar(x, now)) == Some(x))
    && (forall m :: c.manifest(m) != "" && c.readManifest(c.manifest(m)) == Some(m))
    && (forall m, k :: 0 <= k < |c.manifest(m)| ==> c.readManifest(c.manifest(m)[..k]) == None)
  }

  /** The configuration text is the canonical printer's, read by the configuration parser. */
  ghost predicate Canonical(c: Codec) {
    (forall cfg :: c.canonical(cfg) == ConfigText(cfg)) && (forall text :: c.load(text) == Load(text))
  }

  // ---- The recovery directory ----

  datatype File = DraftFile | SidecarFile | ManifestFile

  datatype Dir = Dir(draft: Option<string>, sidecar: Option<string>, manifest: Option<string>)

  const EMPTY := Dir(None, None, None)

  function With(d: Dir, f: File, content: Option<string>): Dir {
    match f
    case DraftFile => d.(draft := content)
    case SidecarFile => d.(sidecar := content)
    case ManifestFile => d.(manifest := content)
  }

  /** Every state a write passes through: truncated, then each prefix of the data. */
  function Writing(d: Dir, f: File, data: string): (states: seq<Dir>)
    ensures |states| == |data| + 1
  {
    seq(|data| + 1, k requires 0 <= k <= |data| => With(d, f, Some(data[..k])))
  }

  datatype Files = Files(draft: string, sidecar: string, manifest: string)

  /** Every state one publication passes through. */
  function WriteStates(d: Dir, files: Files): (states: seq<Dir>)
    ensures |states| == |files.draft| + |files.sidecar| + |files.manifest| + 3
  {
    var d1 := With(d, DraftFile, Some(files.draft));
    var d2 := With(d1, SidecarFile, Some(files.sidecar));
    Writing(d, DraftFile, files.draft) + Writing(d1, SidecarFile, files.sidecar)
      + Writing(d2, ManifestFile, files.manifest)
  }

  // ---- Publications ----

  /** A draft as a sidecar pairs it: the text and the mutation count. */
  datatype Saved = Saved(text: string, count: nat)

  /** One `write_recovery`: what the session's sidecar pairs, and the session's two files. The
      draft file need not hold the paired text: the session may have failed between its files. */
  datatype Save = Save(saved: Saved, draft: string, sidecar: string, source: string, baseSha: string)

  predicate WfSave(c: Codec, s: Save) {
    c.readSidecar(s.sidecar) == Some(Sidecar(c.sha(s.saved.text), s.saved.count))
  }

  function ManifestOf(c: Codec, s: Save): Manifest {
    Manifest(1, s.source, s.baseSha, c.sha(s.saved.text), Some(c.sha(s.sidecar)))
  }

  function FilesOf(c: Codec, s: Save): Files { Files(s.draft, s.sidecar, c.manifest(ManifestOf(c, s))) }

  // ---- Resuming ----

  datatype Outcome = Refused | Unrestored | Restored(cfg: LayeredControlConfig, count: nat)

  /** The source still loads as schema 2 and, if the manifest names a digest, has it. */
  predicate SourceMatches(c: Codec, m: Manifest, source: Option<string>) {
    && source.Some? && c.load(source.value).Some?
    && c.load(source.value).value.schemaVersion >= 2
    && (m.baseSha == "" || c.sha(c.canonical(c.load(source.value).value)) == m.baseSha)
  }

  /** `ConfigDraft.from_recovery`: an empty expected digest is not checked. */
  function FromRecovery(c: Codec, text: string, sidecar: Option<string>, draftSha: string, sidecarSha: string): Outcome {
    if c.load(text).None? || (draftSha != "" && c.sha(text) != draftSha) then Refused
    else if sidecar.None? || c.readSidecar(sidecar.value).None? then Refused
    else if sidecarSha != "" && c.sha(sidecar.value) != sidecarSha then Refused
    else Restored(c.load(text).value, c.readSidecar(sidecar.value).value.count)
  }

  function ManifestIn(c: Codec, d: Dir): Option<Manifest> {
    if d.manifest.None? then None else c.readManifest(d.manifest.value)
  }

  /** `resume_session`, given the source file's text. */
  function Resume(c: Codec, d: Dir, source: Option<string>): Outcome {
    match ManifestIn(c, d)
    case None => Refused
    case Some(m) =>
      if m.version != 1 || m.source == "" || !SourceMatches(c, m, source) || m.sidecarSha.None? then Refused
      else if d.draft.None? then Unrestored
      else FromRecovery(c, d.draft.value, d.sidecar, m.draftSha, m.sidecarSha.value)
  }

  // ---- Runs with crashes ----

  /** A publication that dies after reaching `cut` states (or completes), or a discard that removes
      some of the files. */
  datatype Op = Write(save: Save, cut: nat) | Discard(removed: set<File>)

  /** The directory, and what the last completed publication saved. */
  datatype World = World(dir: Dir, last: Option<Saved>)

  function Remove(d: Dir, removed: set<File>): Dir {
    Dir(if DraftFile in removed then None else d.draft,
        if SidecarFile in removed then None else d.sidecar,
        if ManifestFile in removed then None else d.manifest)
  }

  function Step(c: Codec, w: World, op: Op): World {
    match op
    case Write(s, cut) => (
      var states := WriteStates(w.dir, FilesOf(c, s));
      if cut < |states| - 1 then World(states[cut], w.last) else World(states[|states| - 1], Some(s.saved)))
    case Discard(removed) => World(Remove(w.dir, removed), w.last)
  }

  function Run(c: Codec, ops: seq<Op>): World {
    if ops == [] then World(EMPTY, None) else Step(c, Run(c, ops[..|ops| - 1]), ops[|ops| - 1])
  }

  predicate WfOps(c: Codec, ops: seq<Op>) {
    forall op :: op in ops && op.Write? ==> WfSave(c, op.save)
  }

  // ---- What every reachable directory keeps ----

  /** The manifest's digests admit one draft text and one sidecar, those of `saved`. */
  ghost predicate Attests(c: Codec, m: Manifest, saved: Saved) {
    && m.version == 1 && m.sidecarSha.Some? && m.sidecarSha.value != ""
    && m.draftSha == c.sha(saved.text)
    && forall t :: c.sha(t) == m.sidecarSha.value ==> c.readSidecar(t) == Some(Sidecar(m.draftSha, saved.count))
  }

  /** A manifest that reads at all is that of the last completed publication. */
  ghost predicate Recoverable(c: Codec, w: World) {
    ManifestIn(c, w.dir).Some? ==>
      w.last.Some? && Attests(c, ManifestIn(c, w.dir).value, w.last.value)
  }

  predicate Untorn(c: Codec, w: World) {
    ManifestIn(c, w.dir).Some? ==> w.dir.draft.Some? && w.dir.sidecar.Some?
  }

  /** Before its last state, a publication leaves the old manifest or one that does not read. */
  lemma CutState(c: Codec, d: Dir, s: Save, cut: nat)
    requires Sound(c)
    requires var states := WriteStates(d, FilesOf(c, s)); cut < |states| - 1
    ensures var d1 := WriteStates(d, FilesOf(c, s))[cut];
            && (d1.manifest == d.manifest || ManifestIn(c, d1).None?)
            && d1.draft.Some?
            && (d1.sidecar == d.sidecar || d1.sidecar.Some?)
  {
    var files := FilesOf(c, s);
    var d1 := With(d, DraftFile, Some(files.draft));
    var d2 := With(d1, SidecarFile, Some(files.sidecar));
    var n, k := |files.draft| + 1, |files.sidecar| + 1;
    var states := WriteStates(d, files);
    if cut < n {
      assert states[cut] == Writing(d, DraftFile, files.draft)[cut];
    } else if cut < n + k {
      assert states[cut] == Writing(d1, SidecarFile, files.sidecar)[cut - n];
    } else {
      assert states[cut] == Writing(d2, ManifestFile, files.manifest)[cut - n - k];
    }
  }

  lemma LastState(c: Codec, d: Dir, s: Save)
    ensures var files := FilesOf(c, s);
            var states := WriteStates(d, files);
            states[|states| - 1] == Dir(Some(files.draft), Some(files.sidecar), Some(files.manifest))
  {
    var files := FilesOf(c, s);
    assert files.manifest[..|files.manifest|] == files.manifest;
  }

  /** The three files one after the other, each truncated and then growing; the manifest last. */
  lemma PublicationOrder(d: Dir, files: Files, k: nat)
    requires k < |WriteStates(d, files)|
    ensures var n, m := |files.draft| + 1, |files.sidecar| + 1;
            WriteStates(d, files)[k] ==
              if k < n then Dir(Some(files.draft[..k]), d.sidecar, d.manifest)
              else if k < n + m then Dir(Some(files.draft), Some(files.sidecar[..k - n]), d.manifest)
              else Dir(Some(files.draft), Some(files.sidecar), Some(files.manifest[..k - n - m]))
  {
    var d1 := With(d, DraftFile, Some(files.draft));
    var d2 := With(d1, SidecarFile, Some(files.sidecar));
    var n, m := |files.draft| + 1, |files.sidecar| + 1;
    if k < n {
      assert WriteStates(d, files)[k] == Writing(d, DraftFile, files.draft)[k];
    } else if k < n + m {
      assert WriteStates(d, files)[k] == Writing(d1, SidecarFile, files.sidecar)[k - n];
    } else {
      assert WriteStates(d, files)[k] == Writing(d2, ManifestFile, files.manifest)[k - n - m];
    }
  }

  lemma CompletedAttests(c: Codec, s: Save)
    requires Sound(c) && WfSave(c, s)
    ensures Attests(c, ManifestOf(c, s), s.saved)
  {
  }

  lemma StepRecoverable(c: Codec, w: World, op: Op)
    requires Sound(c) && (op.Write? ==> WfSave(c, op.save)) && Recoverable(c, w)
    ensures Recoverable(c, Step(c, w, op))
    ensures !op.Discard? && Untorn(c, w) ==> Untorn(c, Step(c, w, op))
  {
    match op {
      case Write(s, cut) =>
        if cut < |WriteStates(w.dir, FilesOf(c, s))| - 1 {
          CutState(c, w.dir, s, cut);
        } else {
          LastState(c, w.dir, s);
          CompletedAttests(c, s);
        }
      case Discard(removed) =>
    }
  }

  lemma {:induction false} RunRecoverable(c: Codec, ops: seq<Op>)
    requires Sound(c) && WfOps(c, ops)
    ensures Recoverable(c, Run(c, ops))
    ensures (forall op :: op in ops ==> !op.Discard?) ==> Untorn(c, Run(c, ops))
  {
    if ops != [] {
      var init, op := ops[..|ops| - 1], ops[|ops| - 1];
      assert forall o :: o in init ==> o in ops;
      RunRecoverable(c, init);
      StepRecoverable(c, Run(c, init), op);
    }
  }

  // ---- The source has not changed ----

  predicate LoadsAsSchema2(c: Codec, source: Option<string>) {
    source.Some? && c.load(source.value).Some? && c.load(source.value).value.schemaVersion >= 2
  }

  /** The digest, if one is named, is that of the canonical text of what the file loads as. */
  predicate HasDigest(c: Codec, text: string, sha: string)
    requires c.load(text).Some?
  {
    sha != "" ==> c.sha(c.canonical(c.load(text).value)) == sha
  }

  /** Whatever is in the directory: a resume that is not refused read a manifest, and the source still
      loads and has the digest the manifest names. */
  lemma ResumedSourceUnchanged(c: Codec, d: Dir, source: Option<string>)
    requires Resume(c, d, source) != Refused
    ensures ManifestIn(c, d).Some? && LoadsAsSchema2(c, source) && HasDigest(c, source.value, ManifestIn(c, d).value.baseSha)
  {
  }

  /** A manifest that reads was written by one of the publications. */
  ghost predicate Published(c: Codec, ops: seq<Op>, m: Manifest) {
    exists op :: op in ops && op.Write? && m == ManifestOf(c, op.save)
  }

  lemma {:induction false} ManifestIsPublished(c: Codec, ops: seq<Op>)
    requires Sound(c)
    ensures ManifestIn(c, Run(c, ops).dir).Some? ==> Published(c, ops, ManifestIn(c, Run(c, ops).dir).value)
  {
    if ops != [] {
      var init, op := ops[..|ops| - 1], ops[|ops| - 1];
      var w := Run(c, init);
      assert op in ops && forall o :: o in init ==> o in ops;
      ManifestIsPublished(c, init);
      if op.Write? {
        if op.cut < |WriteStates(w.dir, FilesOf(c, op.save))| - 1 {
          CutState(c, w.dir, op.save, op.cut);
        } else {
          LastState(c, w.dir, op.save);
        }
      }
    }
  }

  /** Over any run of a session whose base was `base`: a resume is not refused only if the source
      loads as schema 2 and its canonical text is still that of `base`. */
  lemma ResumeSeesBase(c: Codec, ops: seq<Op>, source: Option<string>, base: LayeredControlConfig)
    requires Sound(c) && forall op :: op in ops && op.Write? ==> op.save.baseSha == c.sha(c.canonical(base))
    ensures Resume(c, Run(c, ops).dir, source) != Refused ==>
              LoadsAsSchema2(c, source) && c.canonical(c.load(source.value).value) == c.canonical(base)
  {
    ManifestIsPublished(c, ops);
    if Resume(c, Run(c, ops).dir, source) != Refused {
      ResumedSourceUnchanged(c, Run(c, ops).dir, source);
    }
  }

  /** A source replaced by another configuration that loads is refused. */
  lemma ChangedSourceIsRefused(c: Codec, ops: seq<Op>, source: string, base: LayeredControlConfig)
    requires Sound(c) && forall op :: op in ops && op.Write? ==> op.save.baseSha == c.sha(c.canonical(base))
    requires c.load(source).Some? && c.canonical(c.load(source).value) != c.canonical(base)
    ensures Resume(c, Run(c, ops).dir, Some(source)) == Refused
  {
    ResumeSeesBase(c, ops, Some(source), base);
  }

  // ---- What a resume gives ----

  /** When exactly a recoverable directory restores, and what. */
  lemma RestoresExactly(c: Codec, w: World, source: Option<string>)
    requires Sound(c) && Recoverable(c, w) && ManifestIn(c, w.dir).Some? && w.dir.draft.Some?
    ensures var m := ManifestIn(c, w.dir).value;
            var saved := w.last.value;
            Resume(c, w.dir, source) ==
              if && m.source != "" && LoadsAsSchema2(c, source) && HasDigest(c, source.value, m.baseSha)
                 && w.dir.draft.value == saved.text && c.load(saved.text).Some?
                 && w.dir.sidecar.Some? && c.sha(w.dir.sidecar.value) == m.sidecarSha.value
              then Restored(c.load(saved.text).value, saved.count)
              else Refused
  {
  }

  /** Exactly when resuming gives a fresh, unrestored session. */
  lemma UnrestoredExactly(c: Codec, d: Dir, source: Option<string>)
    ensures Resume(c, d, source) == Unrestored <==>
              && ManifestIn(c, d).Some? && d.draft.None?
              && var m := ManifestIn(c, d).value;
                 && m.version == 1 && m.source != "" && m.sidecarSha.Some?
                 && LoadsAsSchema2(c, source) && HasDigest(c, source.value, m.baseSha)
  {
  }

  /** Two file steps reach it: a completed publication, then a discard that dies once the draft is gone. */
  lemma InterruptedDiscard(c: Codec, s: Save, source: Option<string>)
    requires Sound(c) && WfSave(c, s) && s.source != ""
    requires LoadsAsSchema2(c, source) && HasDigest(c, source.value, s.baseSha)
    ensures var ops := [Write(s, |WriteStates(EMPTY, FilesOf(c, s))| - 1), Discard({DraftFile})];
            Resume(c, Run(c, ops).dir, source) == Unrestored
  {
    var write := Write(s, |WriteStates(EMPTY, FilesOf(c, s))| - 1);
    var ops := [write, Discard({DraftFile})];
    assert ops[..1] == [write] && [write][..0] == [];
    LastState(c, EMPTY, s);
    UnrestoredExactly(c, Run(c, ops).dir, source);
  }

  /** After any run of publications, each completed or cut at any state, and of discards, each
      completed or interrupted: resuming is refused, or restores the text and the mutation count of
      one and the same publication, the last that completed. The only other outcome, an unrestored
      session, needs a discard that removed the draft before the manifest. */
  lemma ResumeIsOnePublication(c: Codec, ops: seq<Op>, source: Option<string>)
    requires Sound(c) && WfOps(c, ops)
    ensures var w := Run(c, ops);
            match Resume(c, w.dir, source)
            case Refused => true
            case Unrestored =>
              w.dir.draft.None? && ManifestIn(c, w.dir).Some? && w.last.Some? && exists op :: op in ops && op.Discard?
            case Restored(cfg, count) =>
              && w.last.Some? && w.dir.draft == Some(w.last.value.text)
              && c.load(w.last.value.text) == Some(cfg) && count == w.last.value.count
  {
    RunRecoverable(c, ops);
    var w := Run(c, ops);
    UnrestoredExactly(c, w.dir, source);
    if ManifestIn(c, w.dir).Some? && w.dir.draft.Some? {
      RestoresExactly(c, w, source);
    }
  }

  /** What is restored was, before printing, the working configuration in normal form. */
  lemma RestoredConfig(c: Codec, ops: seq<Op>, source: Option<string>, working: LayeredControlConfig)
    requires Sound(c) && Canonical(c) && WfOps(c, ops) && WfConfig(working)
    requires Run(c, ops).last.Some? && Run(c, ops).last.value.text == c.canonical(working)
    ensures var outcome := Resume(c, Run(c, ops).dir, source);
            outcome.Restored? ==> Survives(working) && outcome.cfg == NormalConfig(working)
  {
    ResumeIsOnePublication(c, ops, source);
    RoundTripExactly(working);
  }

  /** A completed publication of a session whose draft file is up to date can be resumed, exactly
      when its text loads again and the source has not changed. */
  lemma CompletedCanResume(c: Codec, ops: seq<Op>, s: Save, cut: nat, source: Option<string>)
    requires Sound(c) && WfOps(c, ops) && WfSave(c, s) && s.draft == s.saved.text && s.source != ""
    requires cut >= |WriteStates(Run(c, ops).dir, FilesOf(c, s))| - 1
    ensures Resume(c, Run(c, ops + [Write(s, cut)]).dir, source) ==
              if LoadsAsSchema2(c, source) && HasDigest(c, source.value, s.baseSha) && c.load(s.saved.text).Some?
              then Restored(c.load(s.saved.text).value, s.saved.count)
              else Refused
  {
    var all := ops + [Write(s, cut)];
    assert all[..|all| - 1] == ops;
    RunRecoverable(c, all);
    LastState(c, Run(c, ops).dir, s);
    RestoresExactly(c, Run(c, all), source);
  }

  /** In particular, when the session's base was `base`: exactly when the text loads again and the
      source loads as schema 2 with the canonical text of `base`. */
  lemma CompletedResumesOnBase(c: Codec, ops: seq<Op>, s: Save, cut: nat, source: Option<string>, base: LayeredControlConfig)
    requires Sound(c) && WfOps(c, ops) && WfSave(c, s) && s.draft == s.saved.text && s.source != ""
    requires cut >= |WriteStates(Run(c, ops).dir, FilesOf(c, s))| - 1 && s.baseSha == c.sha(c.canonical(base))
    ensures Resume(c, Run(c, ops + [Write(s, cut)]).dir, source) != Refused <==>
              && c.load(s.saved.text).Some? && LoadsAsSchema2(c, source)
              && c.canonical(c.load(source.value).value) == c.canonical(base)
  {
    CompletedCanResume(c, ops, s, cut, source);
  }

  // ---- The files on disk ----

  class RecoveryStore {
    var dir: Dir
    /** Every state the directory has been in. */
    ghost var history: seq<Dir>

    constructor ()
      ensures dir == EMPTY && history == []
    {
      dir := EMPTY;
      history := [];
    }

    /** `discard_recovery`, to the end. */
    method Discard()
      modifies this
      ensures dir == EMPTY
    {
      Put(DraftFile, None);
      Put(SidecarFile, None);
      Put(ManifestFile, None);
    }

    method Put(f: File, content: Option<string>)
      modifies this
      ensures dir == With(old(dir), f, content) && history == old(history) + [dir]
    {
      dir := With(dir, f, content);
      history := history + [dir];
    }

    /** Create or truncate, then write. */
    method WriteFile(f: File, data: string)
      modifies this
      ensures dir == With(old(dir), f, Some(data))
      ensures history == old(history) + Writing(old(dir), f, data)
    {
      Put(f, Some(""));
      assert data[..0] == "";
      for k := 0 to |data|
        invariant dir == With(old(dir), f, Some(data[..k]))
        invariant history == old(history) + Writing(old(dir), f, data)[..k + 1]
      {
        assert data[..k] + [data[k]] == data[..k + 1];
        Put(f, Some(data[..k + 1]));
      }
      assert data[..|data|] == data;
    }
  }

  // ---- The editor session ----

  /** `reviewed`: the stamp names the current mutation count. */
  predicate StampReviewed(reviewedMutation: int, count: nat) { reviewedMutation == count }

  class EditorSession {
    const codec: Codec
    const store: RecoveryStore
    const source: string
    var baseSha: string
    var working: LayeredControlConfig
    var dirty: bool
    var count: nat
    var reviewedMutation: int
    var draftFile: string
    var sidecarFile: string
    /** What the session's sidecar pairs. */
    ghost var paired: Saved

    ghost predicate Valid()
      reads this
    {
      WfSave(codec, Pending())
    }

    ghost function Pending(): Save
      reads this
    {
      Save(paired, draftFile, sidecarFile, source, baseSha)
    }

    predicate Reviewed()
      reads this
    {
      StampReviewed(reviewedMutation, count)
    }

    /** The part of the session the review results are about. */
    ghost function CurrentStamp(): Stamp
      reads this
    {
      Stamp(count, reviewedMutation)
    }

    /** `create_session`: a fresh draft of the source, both session files written. */
    constructor (codec: Codec, store: RecoveryStore, source: string, config: LayeredControlConfig, now: string)
      requires Sound(codec)
      ensures Valid() && this.codec == codec && this.store == store && this.source == source
      ensures working == config && !dirty && CurrentStamp() == Stamped([])
      ensures paired == Saved(codec.canonical(config), 0) && draftFile == codec.canonical(config)
      ensures baseSha == codec.sha(codec.canonical(config))
    {
      this.codec := codec;
      this.store := store;
      this.source := source;
      var text := codec.canonical(config);
      baseSha := codec.sha(text);
      working := config;
      dirty := false;
      count := 0;
      reviewedMutation := -1;
      draftFile := text;
      sidecarFile := codec.sidecar(Sidecar(codec.sha(text), 0), now);
      paired := Saved(text, 0);
    }

    /** A mutation of the draft that took effect. */
    method Edit(config: LayeredControlConfig)
      requires Valid()
      modifies this`working, this`dirty, this`count
      ensures Valid() && working == config && dirty
      ensures CurrentStamp() == StampStep(old(CurrentStamp()), Edited)
    {
      working := config;
      dirty := true;
      count := count + 1;
    }

    method MarkReviewed()
      modifies this`reviewedMutation
      ensures Reviewed() && CurrentStamp() == StampStep(old(CurrentStamp()), Review)
    {
      reviewedMutation := count;
    }

    /** `write_recovery`: its file steps are exactly those of the publication its sidecar pairs. */
    method WriteRecovery()
      requires Valid()
      modifies store
      ensures !dirty ==> store.dir == old(store.dir) && store.history == old(store.history)
      ensures dirty ==>
                var states := WriteStates(old(store.dir), FilesOf(codec, Pending()));
                store.history == old(store.history) + states && store.dir == states[|states| - 1]
    {
      if !dirty { return; }
      store.WriteFile(DraftFile, draftFile);
      store.WriteFile(SidecarFile, sidecarFile);
      var sidecarSha := codec.sha(store.dir.sidecar.value);
      var draftSha := codec.readSidecar(sidecarFile).value.draftSha;
      store.WriteFile(ManifestFile, codec.manifest(Manifest(1, source, baseSha, draftSha, Some(sidecarSha))));
      LastState(codec, old(store.dir), Pending());
    }

    /** `refresh_base`, once the saved target has loaded: a fresh draft of it, a new sidecar, the
        review stamp cleared, and the recovery discarded. */
    method RefreshBase(config: LayeredControlConfig, now: string)
      requires Sound(codec)
      modifies this, store
      ensures working == config && !dirty && baseSha == codec.sha(codec.canonical(config))
      ensures CurrentStamp() == StampStep(old(CurrentStamp()), Refresh) && !Reviewed()
      ensures codec.readSidecar(sidecarFile) == Some(Sidecar(codec.sha(codec.canonical(config)), 0))
      ensures paired == Saved(codec.canonical(config), 0) && Valid() && draftFile == old(draftFile)
      ensures store.dir == EMPTY
    {
      var sha := codec.sha(codec.canonical(config));
      baseSha := sha;
      working := config;
      dirty := false;
      count := 0;
      sidecarFile := codec.sidecar(Sidecar(sha, 0), now);
      paired := Saved(codec.canonical(config), 0);
      reviewedMutation := -1;
      store.Discard();
    }

    /** The recovered draft replaces the fresh one, and its files the session's. */
    method TakeRecovery(config: LayeredControlConfig, n: nat, draft: string, sidecar: string, ghost saved: Saved)
      requires codec.readSidecar(sidecar) == Some(Sidecar(codec.sha(saved.text), saved.count))
      modifies this
      ensures Valid() && working == config && dirty
      ensures CurrentStamp() == StampStep(old(CurrentStamp()), Restore(n)) && !Reviewed()
      ensures paired == saved && draftFile == draft && sidecarFile == sidecar && baseSha == old(baseSha)
    {
      working := config;
      dirty := true;
      count := n;
      draftFile := draft;
      sidecarFile := sidecar;
      paired := saved;
      reviewedMutation := n - 1;
    }

    /** `_update_draft`: the draft file, then the sidecar, then the recovery copy. */
    method UpdateDraft(now: string)
      requires Valid() && Sound(codec)
      modifies this`draftFile, this`sidecarFile, this`paired, store
      ensures Valid() && paired == Saved(codec.canonical(working), count) && draftFile == paired.text
      ensures dirty ==>
                store.history == old(store.history) + WriteStates(old(store.dir), FilesOf(codec, Pending()))
    {
      draftFile := codec.canonical(working);
      sidecarFile := codec.sidecar(Sidecar(codec.sha(draftFile), count), now);
      paired := Saved(draftFile, count);
      WriteRecovery();
    }
  }

  /** What a restored directory holds is a session's pair of files again. */
  lemma RestoredPairs(c: Codec, w: World, source: Option<string>)
    requires Sound(c) && Recoverable(c, w) && Resume(c, w.dir, source).Restored?
    ensures w.last.Some? && w.dir.draft.Some? && w.dir.sidecar.Some?
    ensures c.readSidecar(w.dir.sidecar.value) == Some(Sidecar(c.sha(w.last.value.text), w.last.value.count))
    ensures Resume(c, w.dir, source).count == w.last.value.count
  {
    RestoresExactly(c, w, source);
  }

  /** `resume_session`: a fresh session of the source, then the recovered draft and files. */
  method ResumeSession(codec: Codec, store: RecoveryStore, source: Option<string>, now: string, ghost last: Option<Saved>)
    returns (outcome: Outcome, s: EditorSession?)
    requires Sound(codec) && Recoverable(codec, World(store.dir, last))
    ensures outcome == Resume(codec, store.dir, source)
    ensures s == null <==> outcome == Refused
    ensures s != null ==>
              && ManifestIn(codec, store.dir).Some? && LoadsAsSchema2(codec, source)
              && HasDigest(codec, source.value, ManifestIn(codec, store.dir).value.baseSha)
              && s.baseSha == codec.sha(codec.canonical(codec.load(source.value).value))
    ensures s != null ==> fresh(s) && s.Valid() && s.store == store && s.codec == codec
    ensures outcome.Unrestored? ==> !s.dirty && s.CurrentStamp() == Stamped([])
    ensures outcome.Restored? ==>
              && s.working == outcome.cfg && s.dirty && !s.Reviewed()
              && s.CurrentStamp() == Stamped([Restore(outcome.count)])
              && Some(s.paired) == last && Some(s.draftFile) == store.dir.draft
  {
    outcome := Resume(codec, store.dir, source);
    s := null;
    if outcome == Refused { return; }
    ResumedSourceUnchanged(codec, store.dir, source);
    var manifest := ManifestIn(codec, store.dir).value;
    s := new EditorSession(codec, store, manifest.source, codec.load(source.value).value, now);
    if outcome.Restored? {
      RestoredPairs(codec, World(store.dir, last), source);
      assert [Restore(outcome.count)][..0] == [];
      s.TakeRecovery(outcome.cfg, outcome.count, store.dir.draft.value, store.dir.sidecar.value, last.value);
    }
  }

  // ---- The review stamp ----

  /** What touches the stamp: an effective edit, a refused or empty one, a review, a restored
      recovery, and a refresh from the saved target. */
  datatype StampEvent = Edited | NotEdited | Review | Restore(count: nat) | Refresh

  datatype Stamp = Stamp(count: nat, reviewedMutation: int)

  function StampStep(s: Stamp, e: StampEvent): Stamp {
    match e
    case Edited => s.(count := s.count + 1)
    case NotEdited => s
    case Review => s.(reviewedMutation := s.count)
    case Restore(n) => Stamp(n, n - 1)
    case Refresh => Stamp(0, -1)
  }

  function Stamped(events: seq<StampEvent>): Stamp {
    if events == [] then Stamp(0, -1) else StampStep(Stamped(events[..|events| - 1]), events[|events| - 1])
  }

  /** A review has happened and nothing since has changed, restored or refreshed the draft. */
  predicate ReviewedSince(events: seq<StampEvent>) {
    exists i :: 0 <= i < |events| && events[i] == Review && forall j :: i < j < |events| ==> events[j] == NotEdited || events[j] == Review
  }

  lemma ReviewedSinceSnoc(events: seq<StampEvent>, e: StampEvent)
    ensures ReviewedSince(events + [e]) <==> e == Review || (e == NotEdited && ReviewedSince(events))
  {
    var all := events + [e];
    if e == Review { assert all[|events|] == Review; }
    if e == NotEdited && ReviewedSince(events) {
      var i :| 0 <= i < |events| && events[i] == Review
               && forall j :: i < j < |events| ==> events[j] == NotEdited || events[j] == Review;
      assert all[i] == Review;
    }
    if ReviewedSince(all) {
      var i :| 0 <= i < |all| && all[i] == Review
               && forall j :: i < j < |all| ==> all[j] == NotEdited || all[j] == Review;
      if i < |events| {
        assert all[|events|] == e;
        assert events[i] == Review;
        assert forall j :: i < j < |events| ==> events[j] == all[j];
      }
    }
  }

  /** The stamp says reviewed exactly when the history does. */
  lemma {:induction false} StampMatchesHistory(events: seq<StampEvent>)
    ensures var s := Stamped(events);
            && s.reviewedMutation <= s.count
            && (StampReviewed(s.reviewedMutation, s.count) <==> ReviewedSince(events))
  {
    if events != [] {
      var init, e := events[..|events| - 1], events[|events| - 1];
      StampMatchesHistory(init);
      ReviewedSinceSnoc(init, e);
      assert init + [e] == events;
    }
  }
}
