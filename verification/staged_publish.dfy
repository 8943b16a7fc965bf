/**
 Staged publishing of signed security content.  An installer fills a staging directory, checks it
 and renames it to its version; any number of installers run side by side, and each may fail or
 crash between any two steps.
 */
module StagedPublish {
  import opened Common
  import opened ContentPaths

  type Id = nat

  /** A directory below `versions`, by the name the file system keeps it under. */
  type Name = string

  /** Files by the names the file system keeps them under. */
  type Dir = map<Target, Bytes>

  const FILE_LIMIT: nat := 64 * 1024 * 1024
  const STAGING := ".staging-"

  datatype Item = Item(path: string, url: string, sha256: string, size: nat)

  /** A manifest whose signature has been verified; `bytes` is its original text. */
  datatype Manifest = Manifest(schema: nat, version: string, files: seq<Item>, bytes: Bytes)

  /** What the model does not look into: the digest as text, URL parsing, the rule compiler with the
      reputation schema, and which names the file system takes for the same one.  `name` is given
      names in lower case, so ASCII case never tells two files apart; what else it identifies
      (other letters' case, trailing dots, short names) is left open. */
  datatype Environment = Environment(hash: Bytes -> string, https: string -> bool, usable: Dir -> bool,
                                     name: string -> string)

  /** The manifest's own name is none of the two an accepted path can begin with. */
  type World = w: Environment | w.name("manifest.json") != w.name(REPUTATION) && w.name("manifest.json") != w.name("rules")
    witness Environment(_ => "", _ => true, _ => true, s => s)

  /** Where the file system keeps a file. */
  function Place(w: World, t: Target): (r: Target)
    ensures |r| == |t|
  {
    seq(|t|, i requires 0 <= i < |t| => w.name(t[i]))
  }

  function ManifestFile(w: World): Target { [w.name("manifest.json")] }

  datatype UpdateError = InvalidManifest | InvalidContent | IoError

  // ---------- Manifests ----------

  predicate AlphaNumeric(c: char) {
    'a' <= c <= 'z' || 'A' <= c <= 'Z' || '0' <= c <= '9'
  }

  predicate HexDigit(c: char) {
    'a' <= c <= 'f' || 'A' <= c <= 'F' || '0' <= c <= '9'
  }

  predicate ValidVersion(v: string) {
    0 < |v| <= 64 && forall i :: 0 <= i < |v| ==> AlphaNumeric(v[i]) || v[i] == '.' || v[i] == '_' || v[i] == '-'
  }

  predicate ValidItem(w: World, item: Item) {
    && ContentPath(item.path).Some? && w.https(item.url) && item.size <= FILE_LIMIT
    && Sha256Text(item.sha256)
  }

  predicate Sha256Text(s: string) {
    |s| == 64 && forall i :: 0 <= i < 64 ==> HexDigit(s[i])
  }

  predicate ValidFields(w: World, m: Manifest) {
    && m.schema == 1 && ValidVersion(m.version) && m.files != []
    && (forall i :: 0 <= i < |m.files| ==> ValidItem(w, m.files[i]))
    && (forall i, j :: 0 <= i < j < |m.files| ==> Fold(m.files[i].path) != Fold(m.files[j].path))
  }

  method ValidateManifestFields(w: World, m: Manifest) returns (r: Result<(), UpdateError>)
    ensures r == if ValidFields(w, m) then Ok(()) else Err(InvalidManifest)
  {
    hide ValidItem, ValidVersion, Fold;
    if m.schema != 1 || !ValidVersion(m.version) || m.files == [] {
      return Err(InvalidManifest);
    }
    var paths: set<string> := {};
    for n := 0 to |m.files|
      invariant forall i :: 0 <= i < n ==> ValidItem(w, m.files[i])
      invariant paths == set i | 0 <= i < n :: Fold(m.files[i].path)
      invariant forall i, j :: 0 <= i < j < n ==> Fold(m.files[i].path) != Fold(m.files[j].path)
    {
      var item := m.files[n];
      if !ValidItem(w, item) || Fold(item.path) in paths {
        return Err(InvalidManifest);
      }
      paths := paths + {Fold(item.path)};
    }
    r := Ok(());
  }

  ghost predicate IsStaging(w: World, name: Name) {
    exists s :: HasPrefix(s, STAGING) && w.name(s) == name
  }

  /** Names that are neither the directory itself, its parent nor a staging name. */
  ghost predicate Ordinary(w: World, version: string) {
    version != "." && version != ".." && !IsStaging(w, w.name(Fold(version)))
  }

  function FileOf(w: World, m: Manifest, i: nat): Target
    requires i < |m.files|
  {
    Place(w, TargetOf(m.files[i].path))
  }

  /** The declared size, and the declared digest without regard to case. */
  predicate Satisfies(w: World, item: Item, data: Bytes) {
    |data| == item.size && Fold(w.hash(data)) == Fold(item.sha256)
  }

  predicate Holds(w: World, dir: Dir, m: Manifest, i: nat)
    requires i < |m.files|
  {
    FileOf(w, m, i) in dir && Satisfies(w, m.files[i], dir[FileOf(w, m, i)])
  }

  predicate AllHeld(w: World, dir: Dir, m: Manifest) {
    forall i :: 0 <= i < |m.files| ==> Holds(w, dir, m, i)
  }

  /** Of the first n files, i is the last to name its target. */
  ghost predicate LastNamed(w: World, m: Manifest, i: nat, n: nat)
    requires i < n <= |m.files|
  {
    forall j :: i < j < n ==> FileOf(w, m, j) != FileOf(w, m, i)
  }

  /** The directory after the first n files: nothing else, and each target as last declared. */
  ghost predicate Filled(w: World, dir: Dir, m: Manifest, n: nat)
    requires n <= |m.files|
  {
    && (forall t :: t in dir <==> exists i :: 0 <= i < n && FileOf(w, m, i) == t)
    && (forall i :: 0 <= i < n && LastNamed(w, m, i, n) ==> Holds(w, dir, m, i))
  }

  ghost predicate Built(w: World, dir: Dir, m: Manifest) {
    && ManifestFile(w) in dir && dir[ManifestFile(w)] == m.bytes
    && Filled(w, dir - {ManifestFile(w)}, m, |m.files|) && w.usable(dir - {ManifestFile(w)})
  }

  /** Every target as last declared. */
  ghost predicate Serves(w: World, dir: Dir, m: Manifest) {
    forall i :: 0 <= i < |m.files| && LastNamed(w, m, i, |m.files|) ==> Holds(w, dir, m, i)
  }

  /** Entries that name the same file declare the same content. */
  ghost predicate Agreeing(w: World, m: Manifest) {
    forall i, j :: 0 <= i < |m.files| && 0 <= j < |m.files| && FileOf(w, m, i) == FileOf(w, m, j) ==>
      m.files[i].size == m.files[j].size && Fold(m.files[i].sha256) == Fold(m.files[j].sha256)
  }

  // ---------- Installers ----------

  datatype Phase =
    | Looking
    | Validating
    | Making
    | Filling(stage: Name, done: nat)
    | Recording(stage: Name)
    | Publishing(stage: Name)
    | Cleaning(stage: Name)
    | Installed
    | Failed
    | Crashed

  datatype Installer = Installer(manifest: Manifest, phase: Phase)

  /** The directories below `versions`, and who renamed each published one into place. */
  datatype State = State(dirs: map<Name, Dir>, origins: map<Name, Id>, installers: map<Id, Installer>)

  const INITIAL := State(map[], map[], map[])

  /** A failed write may leave nothing, or anything, under the name. */
  datatype Write = Written | Broken(left: Option<Bytes>)

  datatype Step =
    | Begin(manifest: Manifest)
    | Look
    | Validate(readable: bool)
    | Make(suffix: string, ok: bool)
    | WriteFile(fetched: Option<Bytes>, write: Write)
    | CheckDirectory(readable: bool)
    | WriteManifest(write: Write)
    | Rename(ok: bool)
    | Clean(left: Option<Dir>)
    | Crash

  ghost function Enter(s: State, id: Id, phase: Phase): State
    requires id in s.installers
  {
    s.(installers := s.installers[id := s.installers[id].(phase := phase)])
  }

  /** A file is in the way of another below it, and a directory of a file of its name. */
  predicate InTheWay(t: Target, u: Target) {
    t != u && (t <= u || u <= t)
  }

  predicate Obstructed(dir: Dir, target: Target) {
    exists t :: t in dir && InTheWay(t, target)
  }

  predicate Succeeded(dir: Dir, target: Target, write: Write) {
    write.Written? && !Obstructed(dir, target)
  }

  function Store(dir: Dir, target: Target, data: Bytes, write: Write): Dir {
    match write
    case Written => if Obstructed(dir, target) then dir else dir[target := data]
    case Broken(None) => dir
    case Broken(Some(left)) => dir[target := left]
  }

  function StageName(w: World, m: Manifest, suffix: string): Name {
    w.name(Fold(STAGING + m.version + "-" + suffix))
  }

  /** `destination` of an installer */
  function Destination(w: World, m: Manifest): Name { w.name(Fold(m.version)) }

  ghost function Apply(w: World, s: State, id: Id, step: Step): Option<State> {
    if step.Begin? then
      if id in s.installers || (ValidFields(w, step.manifest) && !Ordinary(w, step.manifest.version)) then None
      else Some(s.(installers := s.installers[id := Installer(step.manifest,
                     if ValidFields(w, step.manifest) then Looking else Failed)]))
    else if id !in s.installers then None
    else Advance(w, s, id, s.installers[id].manifest, s.installers[id].phase, step)
  }

  ghost function Advance(w: World, s: State, id: Id, m: Manifest, phase: Phase, step: Step): Option<State>
    requires id in s.installers
  {
    match step
    case Look =>
      if phase != Looking then None
      else Some(Enter(s, id, if Destination(w, m) in s.dirs then Validating else Making))
    case Validate(readable) =>
      if phase != Validating then None
      else
        var held := readable && Destination(w, m) in s.dirs && AllHeld(w, s.dirs[Destination(w, m)], m)
                    && w.usable(s.dirs[Destination(w, m)]);
        Some(Enter(s, id, if held then Installed else Failed))
    case Make(suffix, ok) =>
      var stage := StageName(w, m, suffix);
      if phase != Making then None
      else if !ok || stage in s.dirs then Some(Enter(s, id, Failed))
      else Some(Enter(s, id, Filling(stage, 0)).(dirs := s.dirs[stage := map[]]))
    case Crash =>
      if phase == Installed || phase == Failed then None else Some(Enter(s, id, Crashed))
    case _ => if phase.Cleaning? then Tidy(s, id, phase.stage, step) else Fill(w, s, id, m, phase, step)
  }

  /** `remove_dir_all`, whose failure is ignored. */
  ghost function Tidy(s: State, id: Id, stage: Name, step: Step): Option<State>
    requires id in s.installers
  {
    if !step.Clean? then None
    else Some(Enter(s, id, Failed).(dirs := match step.left
                                            case None => s.dirs - {stage}
                                            case Some(left) => s.dirs[stage := left]))
  }

  ghost function Fill(w: World, s: State, id: Id, m: Manifest, phase: Phase, step: Step): Option<State>
    requires id in s.installers
  {
    if !(phase.Filling? || phase.Recording? || phase.Publishing?) || phase.stage !in s.dirs then None
    else
      var stage := phase.stage;
      var dir := s.dirs[stage];
      match step
      case WriteFile(fetched, write) =>
        if !phase.Filling? || phase.done >= |m.files| then None
        else if fetched.None? || !Satisfies(w, m.files[phase.done], fetched.value) then
          Some(Enter(s, id, Cleaning(stage)))
        else
          Some(Enter(s, id, if Succeeded(dir, FileOf(w, m, phase.done), write) then Filling(stage, phase.done + 1)
                            else Cleaning(stage))
               .(dirs := s.dirs[stage := Store(dir, FileOf(w, m, phase.done), fetched.value, write)]))
      case CheckDirectory(readable) =>
        if !phase.Filling? || phase.done != |m.files| then None
        else Some(Enter(s, id, if readable && w.usable(dir) then Recording(stage) else Cleaning(stage)))
      case WriteManifest(write) =>
        if !phase.Recording? then None
        else
          Some(Enter(s, id, if Succeeded(dir, ManifestFile(w), write) then Publishing(stage) else Cleaning(stage))
               .(dirs := s.dirs[stage := Store(dir, ManifestFile(w), m.bytes, write)]))
      case Rename(ok) =>
        if !phase.Publishing? then None
        // A rename replaces an empty directory at most.
        else if !ok || (Destination(w, m) in s.dirs && s.dirs[Destination(w, m)] != map[]) then
          Some(Enter(s, id, Cleaning(stage)))
        else
          Some(Enter(s, id, Installed)
               .(dirs := (s.dirs - {stage})[Destination(w, m) := dir], origins := s.origins[Destination(w, m) := id]))
      case _ => None
  }

  ghost function Run(w: World, steps: seq<(Id, Step)>): Option<State> {
    if steps == [] then Some(INITIAL)
    else match Run(w, steps[..|steps| - 1])
      case None => None
      case Some(s) => Apply(w, s, steps[|steps| - 1].0, steps[|steps| - 1].1)
  }

  // ---------- Directories ----------

  lemma {:induction false} LastExists(w: World, m: Manifest, i: nat, n: nat) returns (k: nat)
    requires i < n <= |m.files|
    ensures i <= k < n && FileOf(w, m, k) == FileOf(w, m, i) && LastNamed(w, m, k, n)
    decreases n - i
  {
    if LastNamed(w, m, i, n) {
      k := i;
    } else {
      var j :| i < j < n && FileOf(w, m, j) == FileOf(w, m, i);
      k := LastExists(w, m, j, n);
    }
  }

  lemma ManifestApart(w: World, m: Manifest, i: nat)
    requires ValidFields(w, m) && i < |m.files|
    ensures FileOf(w, m, i) != ManifestFile(w) && !InTheWay(FileOf(w, m, i), ManifestFile(w))
  {
    assert ValidItem(w, m.files[i]);
    TargetInside(m.files[i].path);
    var t := TargetOf(m.files[i].path);
    assert t[0] == REPUTATION || t[0] == "rules";
    assert Place(w, t)[0] == w.name(t[0]);
  }

  lemma FilledNext(w: World, dir: Dir, m: Manifest, n: nat, data: Bytes)
    requires n < |m.files| && Filled(w, dir, m, n) && Satisfies(w, m.files[n], data)
    ensures Filled(w, dir[FileOf(w, m, n) := data], m, n + 1)
  {
    hide TargetOf, Satisfies;
    var next := dir[FileOf(w, m, n) := data];
    forall t ensures t in next <==> exists i :: 0 <= i < n + 1 && FileOf(w, m, i) == t {
      if i :| 0 <= i < n + 1 && FileOf(w, m, i) == t {
        assert i < n || t == FileOf(w, m, n);
      }
    }
    forall i | 0 <= i < n + 1 && LastNamed(w, m, i, n + 1) ensures Holds(w, next, m, i) {
      if i < n {
        assert LastNamed(w, m, i, n);
        assert FileOf(w, m, n) != FileOf(w, m, i);
      }
    }
  }

  lemma BuiltNext(w: World, dir: Dir, m: Manifest)
    requires ValidFields(w, m) && Filled(w, dir, m, |m.files|) && w.usable(dir)
    ensures Built(w, dir[ManifestFile(w) := m.bytes], m)
  {
    forall i | 0 <= i < |m.files| ensures FileOf(w, m, i) != ManifestFile(w) {
      ManifestApart(w, m, i);
    }
    hide ValidFields, TargetOf;
    assert ManifestFile(w) !in dir;
    assert dir[ManifestFile(w) := m.bytes] - {ManifestFile(w)} == dir;
  }

  lemma BuiltServes(w: World, dir: Dir, m: Manifest)
    requires Built(w, dir, m)
    ensures Serves(w, dir, m) && dir != map[]
  {
    hide TargetOf, Satisfies;
    forall i | 0 <= i < |m.files| && LastNamed(w, m, i, |m.files|) ensures Holds(w, dir, m, i) {
      assert Holds(w, dir - {ManifestFile(w)}, m, i);
    }
  }

  lemma HeldAgrees(w: World, dir: Dir, m: Manifest)
    requires AllHeld(w, dir, m)
    ensures Agreeing(w, m)
  {
    hide TargetOf;
    forall i, j | 0 <= i < |m.files| && 0 <= j < |m.files| && FileOf(w, m, i) == FileOf(w, m, j)
      ensures m.files[i].size == m.files[j].size && Fold(m.files[i].sha256) == Fold(m.files[j].sha256)
    {
      assert Holds(w, dir, m, i) && Holds(w, dir, m, j);
    }
  }

  /** A published directory holds every declared file exactly when entries for one file agree. */
  lemma AgreementExact(w: World, dir: Dir, m: Manifest)
    requires Serves(w, dir, m)
    ensures AllHeld(w, dir, m) <==> Agreeing(w, m)
  {
    hide TargetOf;
    if AllHeld(w, dir, m) {
      HeldAgrees(w, dir, m);
    }
    if Agreeing(w, m) {
      forall i | 0 <= i < |m.files| ensures Holds(w, dir, m, i) {
        var k := LastExists(w, m, i, |m.files|);
        assert Holds(w, dir, m, k);
      }
    }
  }

  /** Every path is written plainly. */
  ghost predicate PlainPaths(m: Manifest) {
    forall i :: 0 <= i < |m.files| ==> Plain(m.files[i].path)
  }

  /** Among this manifest's names the file system identifies none that differ in more than separators,
      empty or dot components, and ASCII case. */
  ghost predicate Separated(w: World, m: Manifest) {
    forall i, j :: 0 <= i < j < |m.files| && FileOf(w, m, i) == FileOf(w, m, j) ==>
      TargetOf(m.files[i].path) == TargetOf(m.files[j].path)
  }

  /** Plain paths, on a file system that tells them apart, never name one file twice. */
  lemma PlainAgrees(w: World, m: Manifest)
    requires ValidFields(w, m) && PlainPaths(m) && Separated(w, m)
    ensures Agreeing(w, m)
    ensures forall i, j :: 0 <= i < j < |m.files| ==> FileOf(w, m, i) != FileOf(w, m, j)
  {
    forall i, j | 0 <= i < j < |m.files| ensures FileOf(w, m, i) != FileOf(w, m, j) {
      PlainTargets(m.files[i].path, m.files[j].path);
    }
    hide FileOf;
    assert forall i, j :: 0 <= i < |m.files| && 0 <= j < |m.files| && FileOf(w, m, i) == FileOf(w, m, j) ==> i == j;
  }

  // ---------- Invariants ----------

  predicate Staged(phase: Phase) {
    phase.Filling? || phase.Recording? || phase.Publishing? || phase.Cleaning?
  }

  predicate Over(phase: Phase) {
    phase.Failed? || phase.Crashed?
  }

  ghost predicate Verified(w: World, s: State) {
    forall id :: id in s.installers && !Over(s.installers[id].phase) ==>
      ValidFields(w, s.installers[id].manifest) && Ordinary(w, s.installers[id].manifest.version)
  }

  ghost predicate OwnsStage(s: State, id: Id, name: Name) {
    id in s.installers && Staged(s.installers[id].phase) && s.installers[id].phase.stage == name
  }

  /** Every staging directory in use has one owner and a staging name. */
  ghost predicate Owned(w: World, s: State) {
    && (forall id, name :: OwnsStage(s, id, name) ==> name in s.dirs && IsStaging(w, name))
    && (forall i, j, name :: OwnsStage(s, i, name) && OwnsStage(s, j, name) ==> i == j)
  }

  /** Whatever is not a staging directory was renamed into place by an installer that succeeded. */
  ghost predicate Named(w: World, s: State) {
    && (forall name :: name in s.origins ==> Rooted(w, s, name))
    && (forall name :: name in s.dirs ==> name in s.origins || IsStaging(w, name))
  }

  ghost predicate Rooted(w: World, s: State, name: Name)
    requires name in s.origins
  {
    && name in s.dirs && !IsStaging(w, name) && s.origins[name] in s.installers
    && s.installers[s.origins[name]].phase == Installed
    && Destination(w, s.installers[s.origins[name]].manifest) == name
  }

  ghost predicate PhaseHolds(w: World, dirs: map<Name, Dir>, m: Manifest, phase: Phase) {
    match phase
    case Filling(stage, n) => stage in dirs && n <= |m.files| && Filled(w, dirs[stage], m, n)
    case Recording(stage) => stage in dirs && Filled(w, dirs[stage], m, |m.files|) && w.usable(dirs[stage])
    case Publishing(stage) => stage in dirs && Built(w, dirs[stage], m)
    case _ => true
  }

  ghost predicate Progress(w: World, s: State) {
    forall id :: id in s.installers ==> PhaseHolds(w, s.dirs, s.installers[id].manifest, s.installers[id].phase)
  }

  ghost predicate Published(w: World, s: State) {
    forall name :: name in s.origins ==>
      name in s.dirs && s.origins[name] in s.installers
      && Built(w, s.dirs[name], s.installers[s.origins[name]].manifest)
  }

  ghost predicate ServesAt(w: World, s: State, m: Manifest) {
    Destination(w, m) in s.origins && Destination(w, m) in s.dirs && Serves(w, s.dirs[Destination(w, m)], m)
  }

  ghost predicate Honest(w: World, s: State) {
    forall id :: id in s.installers && s.installers[id].phase == Installed ==> ServesAt(w, s, s.installers[id].manifest)
  }

  ghost predicate Inv(w: World, s: State) {
    Verified(w, s) && Owned(w, s) && Named(w, s) && Progress(w, s) && Published(w, s) && Honest(w, s)
  }

  /** What a step of one installer leaves alone. */
  ghost predicate Frame(s: State, t: State, id: Id) {
    && (forall j :: j in t.installers <==> j in s.installers || j == id)
    && (forall j :: j in s.installers && j != id ==> t.installers[j] == s.installers[j])
    && (id in s.installers ==> t.installers[id].manifest == s.installers[id].manifest)
    && (forall name :: name in s.dirs && !OwnsStage(s, id, name) ==> name in t.dirs && t.dirs[name] == s.dirs[name])
    && (forall name :: name in s.origins ==> name in t.origins && t.origins[name] == s.origins[name])
  }

  /** No rename reaches a directory that already exists. */
  lemma DestinationFree(w: World, s: State, id: Id)
    requires Verified(w, s) && Named(w, s) && Published(w, s) && id in s.installers && s.installers[id].phase.Publishing?
    ensures var d := Destination(w, s.installers[id].manifest);
            (d in s.dirs <==> d in s.origins) && (d in s.dirs ==> s.dirs[d] != map[])
  {
    hide ValidFields, Fold, Built;
    var d := Destination(w, s.installers[id].manifest);
    if d in s.dirs {
      BuiltServes(w, s.dirs[d], s.installers[s.origins[d]].manifest);
    }
  }

  lemma FillFrames(w: World, s: State, id: Id, step: Step)
    requires Verified(w, s) && Owned(w, s) && Named(w, s) && Published(w, s) && id in s.installers
    requires Fill(w, s, id, s.installers[id].manifest, s.installers[id].phase, step).Some?
    ensures Frame(s, Fill(w, s, id, s.installers[id].manifest, s.installers[id].phase, step).value, id)
  {
    hide ValidFields, Built, Satisfies, TargetOf, Fold, Store;
    hide Verified, Owned, Named, Published;
    if s.installers[id].phase.Publishing? {
      DestinationFree(w, s, id);
    }
    assert Staged(s.installers[id].phase) ==> OwnsStage(s, id, s.installers[id].phase.stage);
  }

  lemma EnterFrames(s: State, id: Id, phase: Phase)
    requires id in s.installers
    ensures Frame(s, Enter(s, id, phase), id)
  {
  }

  lemma MakeFrames(s: State, id: Id, phase: Phase, stage: Name)
    requires id in s.installers && stage !in s.dirs
    ensures Frame(s, Enter(s, id, phase).(dirs := s.dirs[stage := map[]]), id)
  {
  }

  lemma TidyFrames(w: World, s: State, id: Id, step: Step)
    requires Named(w, s) && id in s.installers && s.installers[id].phase.Cleaning?
    requires Tidy(s, id, s.installers[id].phase.stage, step).Some?
    ensures Frame(s, Tidy(s, id, s.installers[id].phase.stage, step).value, id)
  {
    hide Named;
    assert OwnsStage(s, id, s.installers[id].phase.stage);
  }

  lemma StepFrames(w: World, s: State, id: Id, step: Step)
    requires Verified(w, s) && Owned(w, s) && Named(w, s) && Published(w, s) && Apply(w, s, id, step).Some?
    ensures Frame(s, Apply(w, s, id, step).value, id)
  {
    if step.Begin? {
      hide Advance, Verified, Owned, Named, Published, ValidFields, Ordinary;
    } else {
      hide Fill, Tidy, Verified, Owned, Named, Published, Fold, ValidFields, AllHeld, IsStaging, Frame, Enter;
      var m, phase := s.installers[id].manifest, s.installers[id].phase;
      match step
      case Look => EnterFrames(s, id, if Destination(w, m) in s.dirs then Validating else Making);
      case Validate(readable) =>
        EnterFrames(s, id, Installed);
        EnterFrames(s, id, Failed);
      case Make(suffix, ok) =>
        var stage := StageName(w, m, suffix);
        EnterFrames(s, id, Failed);
        if stage !in s.dirs { MakeFrames(s, id, Filling(stage, 0), stage); }
      case Crash => EnterFrames(s, id, Crashed);
      case _ =>
        if phase.Cleaning? { TidyFrames(w, s, id, step); } else { FillFrames(w, s, id, step); }
    }
  }

  lemma VerifiedKept(w: World, s: State, id: Id, step: Step)
    requires Verified(w, s) && Apply(w, s, id, step).Some?
    ensures Verified(w, Apply(w, s, id, step).value)
  {
    hide ValidFields, Fold, Satisfies, AllHeld, Store, TargetOf, Ordinary;
  }

  lemma OwnStage(w: World, s: State, id: Id, step: Step, name: Name)
    requires Owned(w, s) && Apply(w, s, id, step).Some? && OwnsStage(Apply(w, s, id, step).value, id, name)
    ensures name in Apply(w, s, id, step).value.dirs && IsStaging(w, name)
    ensures OwnsStage(s, id, name) || name !in s.dirs
  {
    hide ValidFields, Satisfies, AllHeld, Store, TargetOf, Ordinary, Fold, IsStaging;
    if step.Make? {
      StageIsStaging(w, s.installers[id].manifest, step.suffix);
    } else {
      assert OwnsStage(s, id, name);
    }
  }

  lemma OwnedKept(w: World, s: State, id: Id, step: Step)
    requires Owned(w, s) && Apply(w, s, id, step).Some? && Frame(s, Apply(w, s, id, step).value, id)
    ensures Owned(w, Apply(w, s, id, step).value)
  {
    hide Apply, IsStaging;
    var t := Apply(w, s, id, step).value;
    forall j, name | OwnsStage(t, j, name) && j != id
      ensures OwnsStage(s, j, name) && name in t.dirs && IsStaging(w, name) && !OwnsStage(t, id, name)
    {
      assert OwnsStage(s, j, name);
      if OwnsStage(t, id, name) { OwnStage(w, s, id, step, name); }
    }
    forall name | OwnsStage(t, id, name) ensures name in t.dirs && IsStaging(w, name) {
      OwnStage(w, s, id, step, name);
    }
  }

  lemma NewNames(w: World, s: State, id: Id, step: Step)
    requires Verified(w, s) && Owned(w, s) && Apply(w, s, id, step).Some?
    ensures var t := Apply(w, s, id, step).value;
            && (forall name :: name in t.dirs && name !in s.dirs ==> name in t.origins || IsStaging(w, name))
            && (forall name :: name in t.origins && name !in s.origins ==>
                  t.origins[name] == id && id in t.installers && t.installers[id].phase == Installed && name in t.dirs
                  && Destination(w, t.installers[id].manifest) == name && Ordinary(w, t.installers[id].manifest.version))
            && (id in s.installers ==> s.installers[id].phase != Installed)
  {
    hide ValidFields, Satisfies, AllHeld, Store, TargetOf, Fold, IsStaging, Ordinary;
    if step.Make? { StageIsStaging(w, s.installers[id].manifest, step.suffix); }
    assert id in s.installers && Staged(s.installers[id].phase) ==> OwnsStage(s, id, s.installers[id].phase.stage);
  }

  lemma NamedKept(w: World, s: State, id: Id, step: Step)
    requires Verified(w, s) && Owned(w, s) && Named(w, s) && Apply(w, s, id, step).Some?
    requires Frame(s, Apply(w, s, id, step).value, id)
    ensures Named(w, Apply(w, s, id, step).value)
  {
    NewNames(w, s, id, step);
    hide Apply, IsStaging, Verified, Fold, Owned;
    var t := Apply(w, s, id, step).value;
    forall name | name in t.origins ensures Rooted(w, t, name) {
      if name in s.origins {
        assert Rooted(w, s, name);
        StagingApart(w, s, id, name);
      }
    }
    hide Rooted;
    forall name | name in t.dirs ensures name in t.origins || IsStaging(w, name) {
    }
  }

  lemma StagingApart(w: World, s: State, id: Id, name: Name)
    requires Owned(w, s) && name in s.origins && Rooted(w, s, name)
    ensures !OwnsStage(s, id, name)
  {
  }

  lemma OthersProgress(w: World, s: State, t: State, id: Id, j: Id)
    requires Owned(w, s) && Progress(w, s) && Frame(s, t, id) && j != id && j in s.installers
    ensures PhaseHolds(w, t.dirs, t.installers[j].manifest, t.installers[j].phase)
  {
    hide Filled, Built;
    var phase := s.installers[j].phase;
    if Staged(phase) {
      assert OwnsStage(s, j, phase.stage) && !OwnsStage(s, id, phase.stage);
    }
  }

  lemma OwnProgress(w: World, s: State, id: Id, step: Step)
    requires Verified(w, s) && Progress(w, s) && Apply(w, s, id, step).Some?
    ensures var t := Apply(w, s, id, step).value;
            id in t.installers && PhaseHolds(w, t.dirs, t.installers[id].manifest, t.installers[id].phase)
  {
    hide ValidFields, Satisfies, AllHeld, TargetOf, Fold, Ordinary, Filled, Built, Named;
    match step {
      case Begin(m) =>
      case Make(_, _) => EmptyFilled(w, s.installers[id].manifest);
      case WriteFile(fetched, write) => WriteProgress(w, s, id, step);
      case WriteManifest(write) =>
        if s.installers[id].phase.Recording? && s.installers[id].phase.stage in s.dirs {
          BuiltNext(w, s.dirs[s.installers[id].phase.stage], s.installers[id].manifest);
        }
      case _ =>
    }
  }

  lemma EmptyFilled(w: World, m: Manifest)
    ensures Filled(w, map[], m, 0)
  {
  }

  lemma WriteProgress(w: World, s: State, id: Id, step: Step)
    requires Verified(w, s) && Progress(w, s) && Apply(w, s, id, step).Some? && step.WriteFile?
    ensures var t := Apply(w, s, id, step).value;
            id in t.installers && PhaseHolds(w, t.dirs, t.installers[id].manifest, t.installers[id].phase)
  {
    hide ValidFields, Satisfies, AllHeld, TargetOf, Fold, Ordinary, Filled, Built;
    var phase, m := s.installers[id].phase, s.installers[id].manifest;
    if step.write.Written? && step.fetched.Some? && Satisfies(w, m.files[phase.done], step.fetched.value) {
      FilledNext(w, s.dirs[phase.stage], m, phase.done, step.fetched.value);
    }
  }

  lemma ProgressKept(w: World, s: State, id: Id, step: Step)
    requires Verified(w, s) && Owned(w, s) && Progress(w, s) && Apply(w, s, id, step).Some?
    requires Frame(s, Apply(w, s, id, step).value, id)
    ensures Progress(w, Apply(w, s, id, step).value)
  {
    OwnProgress(w, s, id, step);
    hide Apply, PhaseHolds;
    var t := Apply(w, s, id, step).value;
    forall j | j in t.installers ensures PhaseHolds(w, t.dirs, t.installers[j].manifest, t.installers[j].phase) {
      if j != id { OthersProgress(w, s, t, id, j); }
    }
  }

  lemma NewlyPublished(w: World, s: State, id: Id, step: Step, name: Name)
    requires Progress(w, s) && Apply(w, s, id, step).Some? && name in Apply(w, s, id, step).value.origins && name !in s.origins
    ensures var t := Apply(w, s, id, step).value;
            name in t.dirs && id in t.installers && t.origins[name] == id && Built(w, t.dirs[name], t.installers[id].manifest)
  {
    hide ValidFields, Satisfies, AllHeld, Store, TargetOf, Fold, Ordinary, Filled, Built;
  }

  lemma PublishedKept(w: World, s: State, id: Id, step: Step)
    requires Owned(w, s) && Named(w, s) && Progress(w, s) && Published(w, s) && Apply(w, s, id, step).Some?
    requires Frame(s, Apply(w, s, id, step).value, id)
    ensures Published(w, Apply(w, s, id, step).value)
  {
    hide Apply, IsStaging, Progress, Built, Fold;
    var t := Apply(w, s, id, step).value;
    forall name | name in t.origins
      ensures name in t.dirs && t.origins[name] in t.installers
              && Built(w, t.dirs[name], t.installers[t.origins[name]].manifest)
    {
      if name in s.origins {
        assert !OwnsStage(s, id, name);
      } else {
        NewlyPublished(w, s, id, step, name);
      }
    }
  }

  lemma NewlyInstalled(w: World, s: State, id: Id, step: Step)
    requires Verified(w, s) && Named(w, s) && Progress(w, s) && Apply(w, s, id, step).Some?
    requires id in Apply(w, s, id, step).value.installers && Apply(w, s, id, step).value.installers[id].phase == Installed
    ensures ServesAt(w, Apply(w, s, id, step).value, Apply(w, s, id, step).value.installers[id].manifest)
  {
    hide ValidFields, Satisfies, Store, TargetOf, Fold, Built, Filled, IsStaging;
    var m := s.installers[id].manifest;
    if step.Rename? {
      BuiltServes(w, s.dirs[s.installers[id].phase.stage], m);
    }
  }

  lemma HonestKept(w: World, s: State, id: Id, step: Step)
    requires Verified(w, s) && Owned(w, s) && Named(w, s) && Progress(w, s) && Honest(w, s) && Apply(w, s, id, step).Some?
    requires Frame(s, Apply(w, s, id, step).value, id)
    ensures Honest(w, Apply(w, s, id, step).value)
  {
    hide Apply, IsStaging, Progress, Verified, Serves, Fold;
    var t := Apply(w, s, id, step).value;
    forall j | j in t.installers && t.installers[j].phase == Installed ensures ServesAt(w, t, t.installers[j].manifest) {
      if j == id {
        NewlyInstalled(w, s, id, step);
      } else {
        assert !OwnsStage(s, id, Destination(w, s.installers[j].manifest));
      }
    }
  }

  lemma StepKeeps(w: World, s: State, id: Id, step: Step)
    requires Inv(w, s) && Apply(w, s, id, step).Some?
    ensures Inv(w, Apply(w, s, id, step).value) && Frame(s, Apply(w, s, id, step).value, id)
  {
    hide Apply, Frame, Verified, Owned, Named, Progress, Published, Honest;
    StepFrames(w, s, id, step);
    VerifiedKept(w, s, id, step);
    OwnedKept(w, s, id, step);
    NamedKept(w, s, id, step);
    ProgressKept(w, s, id, step);
    PublishedKept(w, s, id, step);
    HonestKept(w, s, id, step);
  }

  lemma StageIsStaging(w: World, m: Manifest, suffix: string)
    ensures IsStaging(w, StageName(w, m, suffix))
  {
    var s := STAGING + m.version + "-" + suffix;
    assert Fold(STAGING) == STAGING;
    assert s[..9] == STAGING && Fold(s)[..9] == Fold(s[..9]);
    assert HasPrefix(Fold(s), STAGING);
  }

  // ---------- Over whole runs ----------

  lemma {:induction false} RunKeeps(w: World, steps: seq<(Id, Step)>)
    requires Run(w, steps).Some?
    ensures Inv(w, Run(w, steps).value)
  {
    if steps != [] {
      var last := |steps| - 1;
      RunKeeps(w, steps[..last]);
      hide Inv, Apply;
      StepKeeps(w, Run(w, steps[..last]).value, steps[last].0, steps[last].1);
    }
  }

  lemma FilledStage(w: World, steps: seq<(Id, Step)>, id: Id, stage: Name)
    requires Run(w, steps).Some? && id in Run(w, steps).value.installers
    ensures var s, i := Run(w, steps).value, Run(w, steps).value.installers[id];
            i.phase == Filling(stage, |i.manifest.files|) ==>
              stage in s.dirs && Filled(w, s.dirs[stage], i.manifest, |i.manifest.files|)
  {
    RunKeeps(w, steps);
    hide Run, Filled;
    var s := Run(w, steps).value;
    assert PhaseHolds(w, s.dirs, s.installers[id].manifest, s.installers[id].phase);
  }

  /** What is published stays published and is never altered. */
  lemma {:induction false} PublishedStays(w: World, steps: seq<(Id, Step)>, k: nat)
    requires k <= |steps| && Run(w, steps).Some?
    ensures Run(w, steps[..k]).Some?
    ensures var before, after := Run(w, steps[..k]).value, Run(w, steps).value;
            forall name :: name in before.origins ==>
              name in after.origins && after.origins[name] == before.origins[name]
              && name in before.dirs && name in after.dirs && after.dirs[name] == before.dirs[name]
    decreases |steps|
  {
    RunKeeps(w, steps);
    if k == |steps| {
      assert steps[..k] == steps;
    } else {
      var last := |steps| - 1;
      assert steps[..last][..k] == steps[..k];
      PublishedStays(w, steps[..last], k);
      RunKeeps(w, steps[..last]);
      StepStays(w, Run(w, steps[..last]).value, steps[last].0, steps[last].1);
    }
  }

  lemma StepStays(w: World, s: State, id: Id, step: Step)
    requires Inv(w, s) && Apply(w, s, id, step).Some?
    ensures var t := Apply(w, s, id, step).value;
            forall name :: name in s.origins ==>
              name in t.origins && t.origins[name] == s.origins[name]
              && name in s.dirs && name in t.dirs && t.dirs[name] == s.dirs[name]
  {
    StepKeeps(w, s, id, step);
    hide Apply, Verified, Progress, Published, Honest;
    forall name | name in s.origins ensures Rooted(w, s, name) && !OwnsStage(s, id, name) {
      assert Rooted(w, s, name);
      StagingApart(w, s, id, name);
    }
  }

  /** The published set grows only by a rename that makes its installer succeed, by one name. */
  lemma OnlyRenamePublishes(w: World, s: State, id: Id, step: Step)
    requires Inv(w, s) && Apply(w, s, id, step).Some?
    ensures var t := Apply(w, s, id, step).value;
            t.origins != s.origins ==>
              step == Rename(true) && id in t.installers && t.installers[id].phase == Installed
              && Destination(w, t.installers[id].manifest) !in s.origins
              && t.origins == s.origins[Destination(w, t.installers[id].manifest) := id]
  {
    hide Inv, Apply, Destination;
    if step.Rename? {
      RenamePublishes(w, s, id, step);
    } else {
      OthersPublishNothing(w, s, id, step);
    }
  }

  lemma OthersPublishNothing(w: World, s: State, id: Id, step: Step)
    requires !step.Rename? && Apply(w, s, id, step).Some?
    ensures Apply(w, s, id, step).value.origins == s.origins
  {
    hide ValidFields, Satisfies, AllHeld, Store, FileOf, ManifestFile, Destination, StageName, Obstructed, Ordinary;
  }

  lemma RenamePublishes(w: World, s: State, id: Id, step: Step)
    requires Inv(w, s) && step.Rename? && Apply(w, s, id, step).Some?
    ensures var t := Apply(w, s, id, step).value;
            t.origins != s.origins ==>
              step.ok && id in t.installers && t.installers[id].phase == Installed
              && Destination(w, t.installers[id].manifest) !in s.origins
              && t.origins == s.origins[Destination(w, t.installers[id].manifest) := id]
  {
    if id in s.installers && s.installers[id].phase.Publishing? {
      DestinationFree(w, s, id);
    }
    hide Inv, Fold;
  }

  /** All or nothing: a published version was put there by an installer that succeeded, carries its
      manifest, and holds every declared file if and only if entries for one file agree. */
  lemma PublishedComplete(w: World, steps: seq<(Id, Step)>, name: Name)
    requires Run(w, steps).Some? && name in Run(w, steps).value.origins
    ensures var s := Run(w, steps).value;
            && name in s.dirs && s.origins[name] in s.installers
            && s.installers[s.origins[name]].phase == Installed
            && var m, dir := s.installers[s.origins[name]].manifest, s.dirs[name];
               && Destination(w, m) == name && ValidFields(w, m) && Built(w, dir, m)
               && (AllHeld(w, dir, m) <==> Agreeing(w, m))
               && (PlainPaths(m) && Separated(w, m) ==> AllHeld(w, dir, m))
  {
    RunKeeps(w, steps);
    var s := Run(w, steps).value;
    assert Rooted(w, s, name);
    hide Run, ValidFields, Built, AllHeld, Agreeing, Serves, Fold, PlainPaths, Separated;
    var m := s.installers[s.origins[name]].manifest;
    BuiltServes(w, s.dirs[name], m);
    AgreementExact(w, s.dirs[name], m);
    if PlainPaths(m) && Separated(w, m) {
      PlainAgrees(w, m);
    }
  }

  /** An installer that reports success leaves its version published, even when another published it. */
  lemma InstalledServes(w: World, steps: seq<(Id, Step)>, id: Id)
    requires Run(w, steps).Some? && id in Run(w, steps).value.installers
    ensures var s := Run(w, steps).value;
            var m := s.installers[id].manifest;
            s.installers[id].phase == Installed ==>
              Destination(w, m) in s.origins && Destination(w, m) in s.dirs
              && (AllHeld(w, s.dirs[Destination(w, m)], m) <==> Agreeing(w, m))
  {
    RunKeeps(w, steps);
    var s := Run(w, steps).value;
    hide Run, ValidFields, AllHeld, Agreeing, Serves, Fold;
    var m := s.installers[id].manifest;
    if s.installers[id].phase == Installed {
      assert ServesAt(w, s, m);
      AgreementExact(w, s.dirs[Destination(w, m)], m);
    }
  }

  /** An installer that has not succeeded has published nothing, and its staging directory is not a version. */
  lemma UnfinishedPublishesNothing(w: World, steps: seq<(Id, Step)>, id: Id)
    requires Run(w, steps).Some? && id in Run(w, steps).value.installers
    ensures var s := Run(w, steps).value;
            s.installers[id].phase != Installed ==>
              id !in s.origins.Values
              && (Staged(s.installers[id].phase) ==> s.installers[id].phase.stage !in s.origins)
  {
    RunKeeps(w, steps);
    var s := Run(w, steps).value;
    hide Run, Verified, Progress, Published, Honest, Fold, IsStaging;
    if s.installers[id].phase != Installed {
      forall name | name in s.origins ensures s.origins[name] != id && !OwnsStage(s, id, name) {
        assert Rooted(w, s, name);
        StagingApart(w, s, id, name);
      }
      assert Staged(s.installers[id].phase) ==> OwnsStage(s, id, s.installers[id].phase.stage);
    }
  }

  lemma RunSnoc(w: World, steps: seq<(Id, Step)>, id: Id, step: Step)
    requires Run(w, steps).Some?
    ensures Run(w, steps + [(id, step)]) == Apply(w, Run(w, steps).value, id, step)
  {
    assert (steps + [(id, step)])[..|steps|] == steps;
  }

  // ---------- Some run publishes ----------

  /** Honest bytes for every declared file. */
  ghost predicate Fetches(w: World, m: Manifest, datas: seq<Bytes>) {
    |datas| == |m.files| && forall n :: 0 <= n < |datas| ==> Satisfies(w, m.files[n], datas[n])
  }

  function FillDir(w: World, m: Manifest, datas: seq<Bytes>, n: nat): Dir
    requires n <= |datas| == |m.files|
  {
    if n == 0 then map[] else FillDir(w, m, datas, n - 1)[FileOf(w, m, n - 1) := datas[n - 1]]
  }

  /** No declared file is where another one needs a directory. */
  ghost predicate Unnested(w: World, m: Manifest) {
    forall i, j :: 0 <= i < j < |m.files| ==> !InTheWay(FileOf(w, m, i), FileOf(w, m, j))
  }

  lemma {:induction false} FillDirKeys(w: World, m: Manifest, datas: seq<Bytes>, n: nat)
    requires n <= |datas| == |m.files|
    ensures forall t :: t in FillDir(w, m, datas, n) <==> exists i :: 0 <= i < n && FileOf(w, m, i) == t
  {
    if n > 0 {
      FillDirKeys(w, m, datas, n - 1);
      hide FileOf;
      forall t ensures t in FillDir(w, m, datas, n) <==> exists i :: 0 <= i < n && FileOf(w, m, i) == t {
        if i :| 0 <= i < n && FileOf(w, m, i) == t {
          assert i < n - 1 || t == FileOf(w, m, n - 1);
        }
      }
    }
  }

  /** The n-th write meets no obstruction exactly when no earlier file is in its way. */
  lemma ObstructedExact(w: World, m: Manifest, datas: seq<Bytes>, n: nat)
    requires n < |datas| == |m.files|
    ensures Obstructed(FillDir(w, m, datas, n), FileOf(w, m, n)) <==>
            exists i :: 0 <= i < n && InTheWay(FileOf(w, m, i), FileOf(w, m, n))
  {
    FillDirKeys(w, m, datas, n);
    hide FileOf, InTheWay, FillDir;
    var dir := FillDir(w, m, datas, n);
    if i :| 0 <= i < n && InTheWay(FileOf(w, m, i), FileOf(w, m, n)) {
      assert FileOf(w, m, i) in dir;
    }
  }

  /** Nothing is in the way of the manifest. */
  lemma ManifestUnobstructed(w: World, m: Manifest, datas: seq<Bytes>)
    requires ValidFields(w, m) && |datas| == |m.files|
    ensures !Obstructed(FillDir(w, m, datas, |datas|), ManifestFile(w))
  {
    FillDirKeys(w, m, datas, |datas|);
    forall i | 0 <= i < |m.files| ensures !InTheWay(FileOf(w, m, i), ManifestFile(w)) {
      ManifestApart(w, m, i);
    }
    hide FileOf, InTheWay, FillDir;
  }

  ghost predicate Stands(w: World, s: Option<State>, m: Manifest, phase: Phase) {
    && s.Some? && 0 in s.value.installers && s.value.installers[0] == Installer(m, phase)
    && Destination(w, m) !in s.value.dirs
  }

  ghost predicate Standing(w: World, s: Option<State>, m: Manifest, phase: Phase, stage: Name, dir: Dir) {
    && Stands(w, s, m, phase) && stage in s.value.dirs && s.value.dirs[stage] == dir && stage != Destination(w, m)
  }

  lemma StartRun(w: World, m: Manifest) returns (stage: Name, steps: seq<(Id, Step)>)
    requires ValidFields(w, m) && Ordinary(w, m.version)
    ensures Run(w, steps).Some? && Standing(w, Run(w, steps), m, Filling(stage, 0), stage, map[])
  {
    stage := StageName(w, m, "");
    StageIsStaging(w, m, "");
    assert stage != Destination(w, m);
    hide ValidFields, Ordinary, Fold, StageName, Destination, IsStaging;
    steps := [];
    RunSnoc(w, steps, 0, Begin(m));
    steps := steps + [(0, Begin(m))];
    RunSnoc(w, steps, 0, Look);
    steps := steps + [(0, Look)];
    assert Stands(w, Run(w, steps), m, Making) && Run(w, steps).value.dirs == map[];
    RunSnoc(w, steps, 0, Make("", true));
    steps := steps + [(0, Make("", true))];
  }

  lemma WriteStands(w: World, s: State, m: Manifest, n: nat, stage: Name, dir: Dir, data: Bytes)
    requires n < |m.files| && Standing(w, Some(s), m, Filling(stage, n), stage, dir) && Satisfies(w, m.files[n], data)
    requires !Obstructed(dir, FileOf(w, m, n))
    ensures Standing(w, Apply(w, s, 0, WriteFile(Some(data), Written)), m, Filling(stage, n + 1), stage,
                     dir[FileOf(w, m, n) := data])
  {
    hide Fold, FileOf, Satisfies, Obstructed, Destination;
  }

  lemma {:induction false} FillingRun(w: World, m: Manifest, datas: seq<Bytes>, n: nat)
    returns (stage: Name, steps: seq<(Id, Step)>)
    requires ValidFields(w, m) && Ordinary(w, m.version) && Fetches(w, m, datas) && n <= |datas|
    requires Unnested(w, m)
    ensures Run(w, steps).Some? && Standing(w, Run(w, steps), m, Filling(stage, n), stage, FillDir(w, m, datas, n))
  {
    hide ValidFields, Ordinary, Satisfies, Run, Apply, TargetOf, Fold, Destination;
    if n == 0 {
      stage, steps := StartRun(w, m);
    } else {
      stage, steps := FillingRun(w, m, datas, n - 1);
      var before := FillDir(w, m, datas, n - 1);
      assert FillDir(w, m, datas, n) == before[FileOf(w, m, n - 1) := datas[n - 1]];
      ObstructedExact(w, m, datas, n - 1);
      hide FillDir, Standing, Obstructed, FileOf, InTheWay;
      var write := WriteFile(Some(datas[n - 1]), Written);
      WriteStands(w, Run(w, steps).value, m, n - 1, stage, before, datas[n - 1]);
      RunSnoc(w, steps, 0, write);
      steps := steps + [(0, write)];
    }
  }

  /** Any acceptable manifest whose files fit into one directory tree can be published: the claims
      about published versions are not empty, and neither are those about colliding entries. */
  lemma SomeRunPublishes(w: World, m: Manifest, datas: seq<Bytes>) returns (steps: seq<(Id, Step)>)
    requires ValidFields(w, m) && Ordinary(w, m.version) && Fetches(w, m, datas) && w.usable(FillDir(w, m, datas, |datas|))
    requires Unnested(w, m)
    ensures Run(w, steps).Some?
    ensures var s := Run(w, steps).value;
            Destination(w, m) in s.origins && s.origins[Destination(w, m)] in s.installers
            && s.installers[s.origins[Destination(w, m)]].manifest == m
  {
    ManifestUnobstructed(w, m, datas);
    hide Run, Apply, ValidFields, Ordinary, Satisfies, FileOf, Obstructed, Unnested, Destination, ManifestFile, Standing;
    var stage;
    stage, steps := FillingRun(w, m, datas, |datas|);
    var dir := FillDir(w, m, datas, |datas|);
    hide FillDir;
    FinishStands(w, Run(w, steps).value, m, stage, dir);
    RunSnoc(w, steps, 0, CheckDirectory(true));
    steps := steps + [(0, CheckDirectory(true))];
    RecordStands(w, Run(w, steps).value, m, stage, dir);
    RunSnoc(w, steps, 0, WriteManifest(Written));
    steps := steps + [(0, WriteManifest(Written))];
    RenameStands(w, Run(w, steps).value, m, stage, dir[ManifestFile(w) := m.bytes]);
    RunSnoc(w, steps, 0, Rename(true));
    steps := steps + [(0, Rename(true))];
  }

  lemma FinishStands(w: World, s: State, m: Manifest, stage: Name, dir: Dir)
    requires Standing(w, Some(s), m, Filling(stage, |m.files|), stage, dir) && w.usable(dir)
    ensures var t := Apply(w, s, 0, CheckDirectory(true)); t.Some? && Standing(w, t, m, Recording(stage), stage, dir)
  {
    hide Destination, Satisfies, FileOf;
  }

  lemma RecordStands(w: World, s: State, m: Manifest, stage: Name, dir: Dir)
    requires Standing(w, Some(s), m, Recording(stage), stage, dir) && !Obstructed(dir, ManifestFile(w))
    ensures var t := Apply(w, s, 0, WriteManifest(Written));
            t.Some? && Standing(w, t, m, Publishing(stage), stage, dir[ManifestFile(w) := m.bytes])
  {
    hide Destination, Satisfies, FileOf, Obstructed, ManifestFile;
  }

  lemma RenameStands(w: World, s: State, m: Manifest, stage: Name, dir: Dir)
    requires Standing(w, Some(s), m, Publishing(stage), stage, dir)
    ensures var t := Apply(w, s, 0, Rename(true));
            t.Some? && Destination(w, m) in t.value.origins && t.value.origins[Destination(w, m)] == 0
            && 0 in t.value.installers && t.value.installers[0].manifest == m
  {
    hide Destination, Satisfies, FileOf;
  }

  // ---------- One installer on its own ----------

  /** What the outside decides for one installation: the staging suffix, the bytes fetched, and which
      file operations succeed. */
  datatype Fate = Fate(suffix: string, readable: bool, makes: bool, fetched: seq<Option<Bytes>>, writes: seq<Write>,
                       checks: bool, record: Write, renames: bool, left: Option<Dir>)

  /** What was fetched, where something was. */
  function Contents(fetched: seq<Option<Bytes>>): (datas: seq<Bytes>)
    ensures |datas| == |fetched|
  {
    seq(|fetched|, i requires 0 <= i < |fetched| => if fetched[i].Some? then fetched[i].value else [])
  }

  /** The n-th file arrives as declared and its write is not refused. */
  ghost predicate Fetched(w: World, m: Manifest, n: nat, fetched: seq<Option<Bytes>>, writes: seq<Write>)
    requires n < |m.files| && n < |fetched| && n < |writes|
  {
    fetched[n].Some? && Satisfies(w, m.files[n], fetched[n].value) && writes[n].Written?
  }

  /** Everything from the first fetch to the rename goes well. */
  ghost predicate Completes(w: World, m: Manifest, fate: Fate)
    requires |fate.fetched| == |m.files| == |fate.writes|
  {
    && Unnested(w, m) && (forall n :: 0 <= n < |m.files| ==> Fetched(w, m, n, fate.fetched, fate.writes))
    && fate.checks && w.usable(FillDir(w, m, Contents(fate.fetched), |m.files|))
    && fate.record.Written? && fate.renames
  }

  ghost predicate SucceedsAnew(w: World, dirs: map<Name, Dir>, m: Manifest, fate: Fate)
    requires |fate.fetched| == |m.files| == |fate.writes|
  {
    fate.makes && StageName(w, m, fate.suffix) !in dirs && Completes(w, m, fate)
  }

  /** When an installation that runs alone succeeds. */
  ghost predicate Succeeds(w: World, dirs: map<Name, Dir>, m: Manifest, fate: Fate)
    requires |fate.fetched| == |m.files| == |fate.writes|
  {
    && ValidFields(w, m)
    && if Destination(w, m) in dirs
       then fate.readable && AllHeld(w, dirs[Destination(w, m)], m) && w.usable(dirs[Destination(w, m)])
       else SucceedsAnew(w, dirs, m, fate)
  }

  /** The published directory: every fetched file, and the manifest. */
  ghost function Content(w: World, m: Manifest, fate: Fate): Dir
    requires |fate.fetched| == |m.files|
  {
    FillDir(w, m, Contents(fate.fetched), |m.files|)[ManifestFile(w) := m.bytes]
  }

  ghost function Installation(w: World, dirs: map<Name, Dir>, m: Manifest, fate: Fate): map<Name, Dir>
    requires |fate.fetched| == |m.files|
  {
    if Destination(w, m) in dirs then dirs else dirs[Destination(w, m) := Content(w, m, fate)]
  }

  lemma StagingStops(w: World, m: Manifest, datas: seq<Bytes>, n: nat, fetched: seq<Option<Bytes>>, writes: seq<Write>)
    requires n < |datas| == |m.files| == |fetched| == |writes|
    requires !(fetched[n].Some? && Satisfies(w, m.files[n], fetched[n].value)
               && Succeeded(FillDir(w, m, datas, n), FileOf(w, m, n), writes[n]))
    ensures !(Unnested(w, m) && forall k :: 0 <= k < |m.files| ==> Fetched(w, m, k, fetched, writes))
  {
    ObstructedExact(w, m, datas, n);
    hide FillDir, FileOf, InTheWay, Obstructed, Satisfies;
    if forall k :: 0 <= k < |m.files| ==> Fetched(w, m, k, fetched, writes) {
      assert Fetched(w, m, n, fetched, writes);
      var i :| 0 <= i < n && InTheWay(FileOf(w, m, i), FileOf(w, m, n));
    }
  }

  class ContentStore {
    const w: World
    var dirs: map<Name, Dir>
    ghost var state: State
    ghost var steps: seq<(Id, Step)>

    /** The directories are those some run of installers leaves. */
    ghost predicate Valid()
      reads this
    {
      Run(w, steps) == Some(state) && state.dirs == dirs
    }

    ghost predicate At(id: Id, m: Manifest, phase: Phase)
      reads this
    {
      id in state.installers && state.installers[id] == Installer(m, phase)
    }

    constructor (w: World)
      ensures Valid() && this.w == w && steps == []
    {
      this.w, dirs, state, steps := w, map[], INITIAL, [];
    }

    ghost method Take(id: Id, step: Step)
      requires Run(w, steps) == Some(state) && Apply(w, state, id, step).Some?
      modifies this`state, this`steps
      ensures Run(w, steps) == Some(state) && Some(state) == old(Apply(w, state, id, step))
      ensures steps == old(steps) + [(id, step)]
    {
      RunSnoc(w, steps, id, step);
      state := Apply(w, state, id, step).value;
      steps := steps + [(id, step)];
    }

    /** Rereads every declared file of an existing version. */
    method ValidateInstalled(dir: Dir, m: Manifest) returns (ok: bool)
      ensures ok <==> AllHeld(w, dir, m) && w.usable(dir)
    {
      for n := 0 to |m.files|
        invariant forall i :: 0 <= i < n ==> Holds(w, dir, m, i)
      {
        if FileOf(w, m, n) !in dir || !Satisfies(w, m.files[n], dir[FileOf(w, m, n)]) {
          assert !Holds(w, dir, m, n);
          return false;
        }
      }
      ok := w.usable(dir);
    }

    method CleanUp(ghost id: Id, ghost m: Manifest, stage: Name, left: Option<Dir>)
      requires Valid() && At(id, m, Cleaning(stage))
      modifies this
      ensures Valid() && At(id, m, Failed) && state.origins == old(state.origins) && old(steps) <= steps
      ensures dirs - {stage} == old(dirs) - {stage}
    {
      Take(id, Clean(left));
      dirs := match left case None => dirs - {stage} case Some(l) => dirs[stage := l];
    }

    /** Fetches, checks and writes every file into the staging directory. */
    method StageFiles(ghost id: Id, m: Manifest, stage: Name, fetched: seq<Option<Bytes>>, writes: seq<Write>)
      returns (ok: bool)
      requires Valid() && At(id, m, Filling(stage, 0)) && stage in dirs && dirs[stage] == map[]
      requires |fetched| == |m.files| == |writes|
      modifies this
      ensures Valid() && stage in dirs && state.origins == old(state.origins) && old(steps) <= steps
      ensures At(id, m, if ok then Filling(stage, |m.files|) else Cleaning(stage))
      ensures ok <==> Unnested(w, m) && forall n :: 0 <= n < |m.files| ==> Fetched(w, m, n, fetched, writes)
      ensures ok ==> dirs[stage] == FillDir(w, m, Contents(fetched), |m.files|) && Filled(w, dirs[stage], m, |m.files|)
      ensures dirs - {stage} == old(dirs) - {stage}
    {
      hide Run, Satisfies, FileOf, InTheWay, Apply, Obstructed, FillDir;
      ok := true;
      ghost var datas := Contents(fetched);
      FillDirEmpty(w, m, datas);
      var n := 0;
      while n < |m.files|
        invariant n <= |m.files| && Valid() && At(id, m, Filling(stage, n)) && stage in dirs
        invariant dirs[stage] == FillDir(w, m, datas, n)
        invariant state.origins == old(state.origins) && old(steps) <= steps
        invariant dirs - {stage} == old(dirs) - {stage}
        invariant forall k :: 0 <= k < n ==> Fetched(w, m, k, fetched, writes)
        invariant forall i, j :: 0 <= i < j < n ==> !InTheWay(FileOf(w, m, i), FileOf(w, m, j))
      {
        ObstructedExact(w, m, datas, n);
        ok := StageOne(id, m, stage, n, fetched[n], writes[n]);
        if !ok {
          StagingStops(w, m, datas, n, fetched, writes);
          return;
        }
        FillDirNext(w, m, datas, n);
        n := n + 1;
      }
      FilledStage(w, steps, id, stage);
    }

    /** One turn of the loop over the files. */
    method StageOne(ghost id: Id, m: Manifest, stage: Name, n: nat, fetched: Option<Bytes>, write: Write)
      returns (ok: bool)
      requires Valid() && At(id, m, Filling(stage, n)) && stage in dirs && n < |m.files|
      modifies this
      ensures Valid() && stage in dirs && state.origins == old(state.origins) && old(steps) <= steps
      ensures dirs - {stage} == old(dirs) - {stage}
      ensures ok <==> fetched.Some? && Satisfies(w, m.files[n], fetched.value)
                      && Succeeded(old(dirs)[stage], FileOf(w, m, n), write)
      ensures ok ==> dirs[stage] == old(dirs)[stage][FileOf(w, m, n) := fetched.value]
      ensures At(id, m, if ok then Filling(stage, n + 1) else Cleaning(stage))
    {
      hide Run, Satisfies, FileOf, Obstructed;
      Take(id, WriteFile(fetched, write));
      if fetched.None? || !Satisfies(w, m.files[n], fetched.value) {
        return false;
      }
      ok := Succeeded(dirs[stage], FileOf(w, m, n), write);
      dirs := dirs[stage := Store(dirs[stage], FileOf(w, m, n), fetched.value, write)];
    }

    /** Verifies, stages and publishes one manifest: a run of the protocol that ends in success exactly
        when everything it depends on does, or in failure with nothing published. */
    method InstallWithFetcher(ghost id: Id, m: Manifest, fate: Fate) returns (r: Result<string, UpdateError>)
      requires Valid() && id !in state.installers && Ordinary(w, m.version)
      requires |fate.fetched| == |m.files| == |fate.writes|
      modifies this
      ensures Valid() && old(steps) <= steps
      ensures At(id, m, if r.Ok? then Installed else Failed)
      ensures r.Ok? <==> Succeeds(w, old(dirs), m, fate)
      ensures r.Ok? ==> r.value == m.version && dirs == Installation(w, old(dirs), m, fate)
      ensures r.Err? ==> state.origins == old(state.origins)
      ensures r.Err? ==> dirs - {StageName(w, m, fate.suffix)} == old(dirs) - {StageName(w, m, fate.suffix)}
      ensures !ValidFields(w, m) ==> r == Err(InvalidManifest) && dirs == old(dirs)
    {
      hide Run, Satisfies, FileOf, ValidFields, AllHeld, Ordinary, Fold, Advance, Unnested, Fetched, FillDir, Destination,
        StageName;
      var checked := ValidateManifestFields(w, m);
      StageApart(w, m, fate.suffix);
      Take(id, Begin(m));
      if checked.Err? {
        return Err(InvalidManifest);
      }
      var known := Find(id, m, fate.readable);
      if known.Some? {
        return if known.value then Ok(m.version) else Err(InvalidContent);
      }
      r := InstallNew(id, m, fate);
    }

    /** What an existing destination means: the version is there, or it is not what was declared. */
    method Find(ghost id: Id, m: Manifest, readable: bool) returns (known: Option<bool>)
      requires Valid() && At(id, m, Looking)
      modifies this
      ensures Valid() && old(steps) <= steps && dirs == old(dirs) && state.origins == old(state.origins)
      ensures known.Some? <==> Destination(w, m) in dirs
      ensures known.Some? ==>
                (known.value <==> readable && AllHeld(w, dirs[Destination(w, m)], m) && w.usable(dirs[Destination(w, m)]))
      ensures At(id, m, if known.None? then Making else if known.value then Installed else Failed)
    {
      hide Run, Satisfies, FileOf, ValidFields, AllHeld, Destination, Fill, Tidy;
      Take(id, Look);
      if Destination(w, m) !in dirs {
        return None;
      }
      var held := ValidateInstalled(dirs[Destination(w, m)], m);
      Take(id, Validate(readable));
      known := Some(readable && held);
    }

    method InstallNew(ghost id: Id, m: Manifest, fate: Fate) returns (r: Result<string, UpdateError>)
      requires Valid() && At(id, m, Making) && |fate.fetched| == |m.files| == |fate.writes| && ValidFields(w, m)
      requires Destination(w, m) !in dirs && StageName(w, m, fate.suffix) != Destination(w, m)
      modifies this
      ensures Valid() && old(steps) <= steps
      ensures At(id, m, if r.Ok? then Installed else Failed)
      ensures r.Ok? <==> SucceedsAnew(w, old(dirs), m, fate)
      ensures r.Ok? ==> r.value == m.version && dirs == Installation(w, old(dirs), m, fate)
      ensures r.Err? ==> state.origins == old(state.origins)
      ensures r.Err? ==> dirs - {StageName(w, m, fate.suffix)} == old(dirs) - {StageName(w, m, fate.suffix)}
    {
      hide Run, Satisfies, FileOf, ValidFields, AllHeld, Destination, Fill, Tidy, Unnested, Fetched, FillDir, StageName;
      var stage := StageName(w, m, fate.suffix);
      Take(id, Make(fate.suffix, fate.makes));
      if !fate.makes || stage in dirs {
        return Err(IoError);
      }
      assert (dirs[stage := map[]]) - {stage} == dirs - {stage} == dirs;
      dirs := dirs[stage := map[]];
      r := Publish(id, m, stage, fate);
      if r.Err? {
        CleanUp(id, m, stage, fate.left);
      }
    }

    /** Stages, checks, records and renames. */
    method Publish(ghost id: Id, m: Manifest, stage: Name, fate: Fate) returns (r: Result<string, UpdateError>)
      requires Valid() && At(id, m, Filling(stage, 0)) && stage in dirs && dirs[stage] == map[] && ValidFields(w, m)
      requires |fate.fetched| == |m.files| == |fate.writes| && Destination(w, m) !in dirs
      modifies this
      ensures Valid() && old(steps) <= steps
      ensures At(id, m, if r.Ok? then Installed else Cleaning(stage))
      ensures r.Ok? <==> Completes(w, m, fate)
      ensures r.Ok? ==> r.value == m.version
                        && dirs == (old(dirs) - {stage})[Destination(w, m) := Content(w, m, fate)]
      ensures r.Err? ==> state.origins == old(state.origins) && stage in dirs && dirs - {stage} == old(dirs) - {stage}
    {
      hide Run, Satisfies, FileOf, ValidFields, AllHeld, Apply, Unnested, Fetched, FillDir, Destination, Filled;
      var staged := StageFiles(id, m, stage, fate.fetched, fate.writes);
      if !staged {
        return Err(InvalidContent);
      }
      r := CheckAndRecord(id, m, stage, fate);
      if r.Ok? {
        ghost var before := dirs;
        assert Destination(w, m) !in dirs - {stage} && Destination(w, m) != stage;
        r := Activate(id, m, stage, fate.renames);
        assert before - {stage} == old(dirs) - {stage};
      }
    }

    /** Checks the filled directory and writes the manifest into it. */
    method CheckAndRecord(ghost id: Id, m: Manifest, stage: Name, fate: Fate) returns (r: Result<string, UpdateError>)
      requires Valid() && At(id, m, Filling(stage, |m.files|)) && stage in dirs && ValidFields(w, m)
      requires |fate.fetched| == |m.files| && dirs[stage] == FillDir(w, m, Contents(fate.fetched), |m.files|)
      modifies this
      ensures Valid() && old(steps) <= steps && stage in dirs && state.origins == old(state.origins)
      ensures At(id, m, if r.Ok? then Publishing(stage) else Cleaning(stage))
      ensures r.Ok? <==> fate.checks && w.usable(old(dirs)[stage]) && fate.record.Written?
      ensures r.Ok? ==> r.value == m.version && dirs[stage] == old(dirs)[stage][ManifestFile(w) := m.bytes]
      ensures dirs - {stage} == old(dirs) - {stage}
    {
      hide Run, Satisfies, FileOf, ValidFields, AllHeld, FillDir, Obstructed, ManifestFile, Tidy, Store, Destination;
      Take(id, CheckDirectory(fate.checks));
      if !fate.checks || !w.usable(dirs[stage]) {
        return Err(InvalidContent);
      }
      r := RecordManifest(id, m, stage, Contents(fate.fetched), fate.record);
    }

    method RecordManifest(ghost id: Id, m: Manifest, stage: Name, ghost datas: seq<Bytes>, write: Write)
      returns (r: Result<string, UpdateError>)
      requires Valid() && At(id, m, Recording(stage)) && stage in dirs && ValidFields(w, m)
      requires |datas| == |m.files| && dirs[stage] == FillDir(w, m, datas, |m.files|)
      modifies this
      ensures Valid() && old(steps) <= steps && stage in dirs && state.origins == old(state.origins)
      ensures At(id, m, if r.Ok? then Publishing(stage) else Cleaning(stage))
      ensures r.Ok? <==> write.Written?
      ensures r.Ok? ==> r.value == m.version && dirs[stage] == old(dirs)[stage][ManifestFile(w) := m.bytes]
      ensures dirs - {stage} == old(dirs) - {stage}
    {
      ManifestUnobstructed(w, m, datas);
      ManifestApplies(w, state, id, m, stage, write);
      Unobstructed(dirs[stage], ManifestFile(w), m.bytes, write);
      hide Run, Apply, FileOf, ValidFields, FillDir, Obstructed, ManifestFile, Store, Succeeded;
      Take(id, WriteManifest(write));
      OnlyStage(dirs, stage, Store(dirs[stage], ManifestFile(w), m.bytes, write));
      dirs := dirs[stage := Store(dirs[stage], ManifestFile(w), m.bytes, write)];
      r := if write.Written? then Ok(m.version) else Err(IoError);
    }

    /** Renames the staging directory to its version. */
    method Activate(ghost id: Id, m: Manifest, stage: Name, renames: bool) returns (r: Result<string, UpdateError>)
      requires Valid() && At(id, m, Publishing(stage)) && stage in dirs
      modifies this
      ensures Valid() && old(steps) <= steps
      ensures At(id, m, if r.Ok? then Installed else Cleaning(stage))
      ensures r.Ok? <==> renames && (Destination(w, m) !in old(dirs) || old(dirs)[Destination(w, m)] == map[])
      ensures r.Ok? ==> r.value == m.version && state.origins == old(state.origins)[Destination(w, m) := id]
                        && dirs == (old(dirs) - {stage})[Destination(w, m) := old(dirs)[stage]]
      ensures r.Err? ==> state.origins == old(state.origins) && dirs == old(dirs)
    {
      hide Run, Satisfies, FileOf, ValidFields, AllHeld, Destination;
      var destination := Destination(w, m);
      Take(id, Rename(renames));
      if !renames || (destination in dirs && dirs[destination] != map[]) {
        return Err(IoError);
      }
      dirs := (dirs - {stage})[destination := dirs[stage]];
      r := Ok(m.version);
    }
  }

  lemma Unobstructed(dir: Dir, target: Target, data: Bytes, write: Write)
    requires !Obstructed(dir, target)
    ensures Succeeded(dir, target, write) <==> write.Written?
    ensures write.Written? ==> Store(dir, target, data, write) == dir[target := data]
  {
  }

  lemma OnlyStage(dirs: map<Name, Dir>, stage: Name, dir: Dir)
    ensures dirs[stage := dir] - {stage} == dirs - {stage}
  {
  }

  lemma ManifestApplies(w: World, s: State, id: Id, m: Manifest, stage: Name, write: Write)
    requires id in s.installers && s.installers[id] == Installer(m, Recording(stage)) && stage in s.dirs
    ensures var t, dir := Apply(w, s, id, WriteManifest(write)), s.dirs[stage];
            && t.Some? && t.value.origins == s.origins && id in t.value.installers
            && t.value.installers[id] == Installer(m, if Succeeded(dir, ManifestFile(w), write) then Publishing(stage)
                                                      else Cleaning(stage))
            && t.value.dirs == s.dirs[stage := Store(dir, ManifestFile(w), m.bytes, write)]
  {
    hide Store, Obstructed, ManifestFile;
  }

  lemma StageApart(w: World, m: Manifest, suffix: string)
    ensures Ordinary(w, m.version) ==> StageName(w, m, suffix) != Destination(w, m)
  {
    StageIsStaging(w, m, suffix);
  }

  lemma FillDirEmpty(w: World, m: Manifest, datas: seq<Bytes>)
    requires |datas| == |m.files|
    ensures FillDir(w, m, datas, 0) == map[]
  {
  }

  lemma FillDirNext(w: World, m: Manifest, datas: seq<Bytes>, n: nat)
    requires n < |datas| == |m.files|
    ensures FillDir(w, m, datas, n + 1) == FillDir(w, m, datas, n)[FileOf(w, m, n) := datas[n]]
  {
  }

  // ---------- Entries that collide ----------

  /** Two entries with different contents. */
  function TwoEntries(w: World, p: string, q: string, a: Bytes, b: Bytes): Manifest {
    Manifest(1, "1", [Item(p, "https://h/1", w.hash(a), |a|), Item(q, "https://h/2", w.hash(b), |b|)], [])
  }

  /** Contents of different sizes that a manifest can declare. */
  ghost predicate Declarable(w: World, a: Bytes, b: Bytes) {
    && |a| != |b| && |a| <= FILE_LIMIT && |b| <= FILE_LIMIT
    && w.https("https://h/1") && w.https("https://h/2") && Sha256Text(w.hash(a)) && Sha256Text(w.hash(b))
  }

  /** Paths the duplicate check tells apart and the file system does not. */
  ghost predicate Collide(w: World, p: string, q: string) {
    && ContentPath(p).Some? && ContentPath(q).Some? && Fold(p) != Fold(q)
    && Place(w, TargetOf(p)) == Place(w, TargetOf(q))
  }

  /** A manifest of two such paths passes every check, and no directory can hold it. */
  lemma CollidingEntries(w: World, p: string, q: string, a: Bytes, b: Bytes)
    requires Collide(w, p, q) && Declarable(w, a, b)
    ensures var m := TwoEntries(w, p, q, a, b);
            && ValidFields(w, m) && !Agreeing(w, m) && Unnested(w, m) && forall dir :: !AllHeld(w, dir, m)
  {
    hide Fold, ContentPath, TargetOf, Sha256Text, Place;
    var m := TwoEntries(w, p, q, a, b);
    assert ValidItem(w, m.files[0]) && ValidItem(w, m.files[1]);
    assert FileOf(w, m, 0) == FileOf(w, m, 1) && m.files[0].size != m.files[1].size;
    hide ValidFields, FileOf;
    forall dir | AllHeld(w, dir, m) ensures Agreeing(w, m) {
      HeldAgrees(w, dir, m);
    }
  }

  /** A published version that does not hold what its manifest declares. */
  ghost predicate Incomplete(w: World, s: State, m: Manifest) {
    && Destination(w, m) in s.origins && Destination(w, m) in s.dirs
    && s.origins[Destination(w, m)] in s.installers && s.installers[s.origins[Destination(w, m)]].manifest == m
    && !AllHeld(w, s.dirs[Destination(w, m)], m)
  }

  /** ... and a run publishes it: the file keeps the second content, which need only be usable. */
  lemma CollisionPublished(w: World, p: string, q: string, a: Bytes, b: Bytes) returns (steps: seq<(Id, Step)>)
    requires Collide(w, p, q) && Declarable(w, a, b) && Ordinary(w, "1")
    requires w.usable(map[Place(w, TargetOf(q)) := b])
    ensures var m := TwoEntries(w, p, q, a, b);
            ValidFields(w, m) && Run(w, steps).Some? && Incomplete(w, Run(w, steps).value, m)
  {
    var m := TwoEntries(w, p, q, a, b);
    CollidingEntries(w, p, q, a, b);
    TwoContents(w, p, q, a, b);
    hide *;
    steps := SomeRunPublishes(w, m, [a, b]);
    PublishedComplete(w, steps, Destination(w, m));
  }

  lemma TwoContents(w: World, p: string, q: string, a: Bytes, b: Bytes)
    requires Place(w, TargetOf(p)) == Place(w, TargetOf(q))
    ensures var m := TwoEntries(w, p, q, a, b);
            m.version == "1" && Fetches(w, m, [a, b]) && FillDir(w, m, [a, b], |[a, b]|) == map[Place(w, TargetOf(q)) := b]
  {
    hide Fold, TargetOf, Place;
    var m := TwoEntries(w, p, q, a, b);
    assert FillDir(w, m, [a, b], 0) == map[];
    assert FillDir(w, m, [a, b], 1) == map[][FileOf(w, m, 0) := a];
  }

  /** On every file system: one separator of an accepted path written the other way. */
  lemma SeparatorsCollide(w: World, path: string, k: nat)
    requires ContentPath(path).Some? && k < |path| && path[k] == '/'
    ensures Collide(w, path, path[k := '\\'])
  {
    SeparatorFolded(path, k);
  }

  const RULE_FILE := RULES + "a.yar"

  /** So `rules/a.yar` and `rules\a.yar` publish an incomplete version. */
  lemma SeparatorCollision(w: World, a: Bytes, b: Bytes) returns (steps: seq<(Id, Step)>)
    requires Declarable(w, a, b) && Ordinary(w, "1") && w.usable(map[Place(w, TargetOf(RULE_FILE)) := b])
    ensures var m := TwoEntries(w, RULE_FILE, RULE_FILE[5 := '\\'], a, b);
            ValidFields(w, m) && Run(w, steps).Some? && Incomplete(w, Run(w, steps).value, m)
  {
    YarFile();
    RuleFileAccepted("a.yar");
    SeparatorsCollide(w, RULE_FILE, 5);
    SeparatorFolded(RULE_FILE, 5);
    hide *;
    steps := CollisionPublished(w, RULE_FILE, RULE_FILE[5 := '\\'], a, b);
  }

  /** Two plain rule paths whose names differ in one letter beyond ASCII, such as an accented capital and
      its small form, do the same wherever the file system takes the two names for one. */
  lemma LetterCollision(w: World, c: char, d: char, a: Bytes, b: Bytes) returns (steps: seq<(Id, Step)>)
    requires c > '\U{7F}' && d > '\U{7F}' && c != d && w.name(YarName([c])) == w.name(YarName([d]))
    requires Declarable(w, a, b) && Ordinary(w, "1") && w.usable(map[Place(w, TargetOf(RulePath([d]))) := b])
    ensures var m := TwoEntries(w, RulePath([c]), RulePath([d]), a, b);
            ValidFields(w, m) && PlainPaths(m) && Run(w, steps).Some? && Incomplete(w, Run(w, steps).value, m)
  {
    LettersCollide(w, c, d);
    LetterIsPlain(c);
    LetterIsPlain(d);
    hide *;
    steps := CollisionPublished(w, RulePath([c]), RulePath([d]), a, b);
  }

  lemma LettersCollide(w: World, c: char, d: char)
    requires c > '\U{7F}' && d > '\U{7F}' && c != d && w.name(YarName([c])) == w.name(YarName([d]))
    ensures Collide(w, RulePath([c]), RulePath([d]))
  {
    LetterIsPlain(c);
    LetterIsPlain(d);
    assert RulePath([c])[6] == c && RulePath([d])[6] == d;
    hide ContentPath, TargetOf, Fold;
    var p, q := ["rules", YarName([c])], ["rules", YarName([d])];
    assert Place(w, p) == [w.name("rules"), w.name(YarName([c]))] == Place(w, q);
  }
}
