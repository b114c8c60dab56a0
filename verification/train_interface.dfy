/** The decision logic of jarvis/train_interface.py: which weights a training
    run starts from, where the newest saved weights are, how many epochs run
    and where the logs go. Models, datasets, TensorBoard and `torch.load` are
    outside the model; the loaders of EfficientTrack and HybridNet are
    parameters. */
module TrainInterface {
  import opened Wrappers
  import Paths
  import KeySort

  /** The five pose-pretraining names `train_efficienttrack` accepts. */
  const PosePretrainNames: seq<string> := ["MonkeyHand", "HumanHand", "HumanBody", "RatBody", "MouseBody"]

  /** What a weights argument asks for. */
  datatype WeightSource =
    | Latest
    | NoWeights
    | EcoSet
    | PosePretrain(name: string)
    | WeightsPath(path: string)

  /** The strings that `train_efficienttrack` does not read as a path. */
  predicate Reserved(w: string) {
    w == "latest" || w == "None" || w == "ecoset" || w == "EcoSet" || w in PosePretrainNames
  }

  /** The `if/elif` chain of `train_efficienttrack` on its `weights` argument,
      where `None` is Python's `None`. */
  function ClassifyEfficientTrack(w: Option<string>): (r: WeightSource)
    ensures r.Latest? <==> w == Some("latest")
    ensures r.NoWeights? <==> w == None || w == Some("None")
    ensures r.EcoSet? <==> w == Some("ecoset") || w == Some("EcoSet")
    ensures r.PosePretrain? <==> w.Some? && w.value in PosePretrainNames
    ensures r.WeightsPath? <==> w.Some? && !Reserved(w.value)
    ensures r.PosePretrain? ==> r.name == w.value
    ensures r.WeightsPath? ==> r.path == w.value
  {
    match w
    case None => NoWeights
    case Some(s) =>
      if s == "latest" then Latest
      else if s == "None" then NoWeights
      else if s == "ecoset" || s == "EcoSet" then EcoSet
      else if s in PosePretrainNames then PosePretrain(s)
      else WeightsPath(s)
  }

  /** The `if/elif` chain of `train_hybridnet` on either weights argument:
      only "latest" and "None" are special, everything else is a path. */
  function ClassifyHybrid(w: Option<string>): (r: WeightSource)
    ensures r.Latest? <==> w == Some("latest")
    ensures r.NoWeights? <==> w == None || w == Some("None")
    ensures r.WeightsPath? <==> w.Some? && w.value != "latest" && w.value != "None"
    ensures r.WeightsPath? ==> r.path == w.value
    ensures !r.EcoSet? && !r.PosePretrain?
  {
    match w
    case None => NoWeights
    case Some(s) =>
      if s == "latest" then Latest
      else if s == "None" then NoWeights
      else WeightsPath(s)
  }

  /** A canonical argument that asks for `src`. */
  function Spelling(src: WeightSource): Option<string> {
    match src
    case Latest => Some("latest")
    case NoWeights => None
    case EcoSet => Some("EcoSet")
    case PosePretrain(n) => Some(n)
    case WeightsPath(p) => Some(p)
  }

  /** A source `train_efficienttrack` can be asked for: a pose name from the
      list, or a path that no reserved word shadows. */
  predicate Expressible(src: WeightSource) {
    match src
    case PosePretrain(n) => n in PosePretrainNames
    case WeightsPath(p) => !Reserved(p)
    case _ => true
  }

  /** Every expressible source is reached by its spelling, and every argument
      names an expressible source whose spelling it is, up to the two aliases
      ("None" for `None`, "ecoset" for "EcoSet"). */
  lemma SpellingRoundTrip(src: WeightSource, w: Option<string>)
    ensures Expressible(src) ==> ClassifyEfficientTrack(Spelling(src)) == src
    ensures Expressible(ClassifyEfficientTrack(w))
    ensures var s := Spelling(ClassifyEfficientTrack(w));
      s == w || (w == Some("None") && s == None) || (w == Some("ecoset") && s == Some("EcoSet"))
  {
  }

  /** A path that `train_efficienttrack` would take as a file is a file for
      `train_hybridnet` too; the converse fails for the ecoset and pose
      names, which `train_hybridnet` reads as paths. */
  lemma HybridReadsMoreAsPaths(w: Option<string>)
    ensures ClassifyEfficientTrack(w).WeightsPath? ==> ClassifyHybrid(w) == ClassifyEfficientTrack(w)
    ensures ClassifyHybrid(w).WeightsPath? && !ClassifyEfficientTrack(w).WeightsPath? ==>
              ClassifyEfficientTrack(w).EcoSet? || ClassifyEfficientTrack(w).PosePretrain?
    ensures ClassifyHybrid(Some("EcoSet")) == WeightsPath("EcoSet")
    ensures ClassifyEfficientTrack(Some("EcoSet")) == EcoSet
  {
  }

  /** The part of the file system the functions look at: which paths are
      files, what each directory lists (in `os.listdir` order) and each path's
      modification time. */
  datatype FileSystem = FileSystem(files: set<string>, dirs: map<string, seq<string>>, mtime: string -> int)

  /** `load_weights_keypoint_detect`: `None` loads nothing and succeeds, an
      existing file is loaded, any other path fails. */
  function LoadWeightsKeypointDetect(fs: FileSystem, path: Option<string>): (found: bool)
    ensures found <==> path.None? || path.value in fs.files
  {
    match path
    case None => true
    case Some(p) => p in fs.files
  }

  /** The project settings the training entry points read. */
  datatype ProjectConfig = ProjectConfig(
    parentDir: string,
    projectsRoot: string,
    projectName: string,
    centerDetectEpochs: int,
    keypointDetectEpochs: int,
    hybridNetEpochs: int,
    compoundCoef: int)

  function DigitChar(d: nat): char
    requires d < 10
  {
    "0123456789"[d]
  }

  /** Decimal digits of `n`, as an f-string prints it. */
  function DigitString(n: nat): (r: string)
    ensures |r| > 0
  {
    if n < 10 then [DigitChar(n)] else DigitString(n / 10) + [DigitChar(n % 10)]
  }

  function IntToString(n: int): string {
    if n < 0 then "-" + DigitString(-n) else DigitString(n)
  }

  /** The final-weights file name for a compound coefficient. */
  function FinalWeightsName(coef: int): string {
    "EfficientTrack-d" + IntToString(coef) + "_final.pth"
  }

  /** `parent/projects/<project>/models/<mode>`, where saved runs are looked for. */
  function SearchPath(cfg: ProjectConfig, mode: string): string {
    Paths.JoinAll([cfg.parentDir, "projects", cfg.projectName, "models", mode])
  }

  /** The listed run directories, with their listing positions and times. */
  function Candidates(fs: FileSystem, search: string, listing: seq<string>): (r: seq<KeySort.Entry>)
    ensures |r| == |listing|
    ensures forall i :: 0 <= i < |r| ==> r[i].name == Paths.Join(search, listing[i]) && r[i].pos == i
    ensures forall i :: 0 <= i < |r| ==> r[i].time == fs.mtime(r[i].name)
    ensures KeySort.DistinctPositions(r)
  {
    seq(|listing|, i requires 0 <= i < |listing| =>
      KeySort.Entry(Paths.Join(search, listing[i]), i, fs.mtime(Paths.Join(search, listing[i]))))
  }

  /** Whether a run directory holds the final-weights file. */
  function HoldsWeights(fs: FileSystem, file: string): KeySort.Entry -> bool {
    (e: KeySort.Entry) => Paths.Join(e.name, file) in fs.files
  }

  /** Why `os.listdir` raised. */
  datatype ListingError = NotADirectory(path: string)

  /** The loop of `get_latest_weights_efficienttrack` over a listing of
      `search`: the final-weights file of the first run directory, newest
      first, that holds one. */
  function NewestWithWeights(fs: FileSystem, search: string, file: string, listing: seq<string>): (r: Option<string>)
    ensures r.Some? ==> r.value in fs.files
  {
    match KeySort.FirstMatch(KeySort.Reverse(KeySort.Sort(Candidates(fs, search, listing))), HoldsWeights(fs, file))
    case None => None
    case Some(e) => Some(Paths.Join(e.name, file))
  }

  /** `get_latest_weights_efficienttrack`: list the run directories, order them
      newest first by modification time, and return the final-weights file of
      the first one that has it; a missing search directory raises. */
  function LatestWeights(fs: FileSystem, cfg: ProjectConfig, mode: string): (r: Result<Option<string>, ListingError>)
    ensures r.Failure? <==> SearchPath(cfg, mode) !in fs.dirs
    ensures r.Failure? ==> r.error == NotADirectory(SearchPath(cfg, mode))
    ensures r.Success? && r.value.Some? ==> r.value.value in fs.files
  {
    var search := SearchPath(cfg, mode);
    if search !in fs.dirs then Failure(NotADirectory(search))
    else Success(NewestWithWeights(fs, search, FinalWeightsName(cfg.compoundCoef), fs.dirs[search]))
  }

  /** Run directory `d` of `search` holds the final-weights file. */
  predicate HasFinal(fs: FileSystem, search: string, file: string, d: string) {
    Paths.Join(Paths.Join(search, d), file) in fs.files
  }

  /** The sort key of the `i`-th listed run directory. */
  function RunKey(fs: FileSystem, search: string, listing: seq<string>, i: nat): KeySort.Entry
    requires i < |listing|
  {
    KeySort.Entry(Paths.Join(search, listing[i]), i, fs.mtime(Paths.Join(search, listing[i])))
  }

  /** No file is found exactly when no listed directory holds one. */
  lemma NewestWithWeightsNone(fs: FileSystem, search: string, file: string, listing: seq<string>)
    ensures NewestWithWeights(fs, search, file, listing).None? <==>
            forall d :: d in listing ==> !HasFinal(fs, search, file, d)
  {
    var es := Candidates(fs, search, listing);
    var p := HoldsWeights(fs, file);
    KeySort.NewestMatch(es, p);
    var m := KeySort.FirstMatch(KeySort.Reverse(KeySort.Sort(es)), p);
    if m.None? {
      forall d | d in listing
        ensures !HasFinal(fs, search, file, d)
      {
        var i :| 0 <= i < |listing| && listing[i] == d;
        assert es[i] in es;
      }
    } else {
      var i :| 0 <= i < |es| && es[i] == m.value;
      assert listing[i] in listing && HasFinal(fs, search, file, listing[i]);
    }
  }

  /** A file found comes from the newest listed directory holding one; ties
      in time go to the later-listed directory, as the stable sort followed by
      `reverse` leaves them. */
  lemma NewestWithWeightsSome(fs: FileSystem, search: string, file: string, listing: seq<string>)
    ensures var r := NewestWithWeights(fs, search, file, listing);
      r.Some? ==>
        exists i :: 0 <= i < |listing| && HasFinal(fs, search, file, listing[i]) &&
          r.value == Paths.Join(Paths.Join(search, listing[i]), file) &&
          forall j :: 0 <= j < |listing| && j != i && HasFinal(fs, search, file, listing[j]) ==>
            KeySort.Before(RunKey(fs, search, listing, j), RunKey(fs, search, listing, i))
  {
    var es := Candidates(fs, search, listing);
    var p := HoldsWeights(fs, file);
    KeySort.NewestMatch(es, p);
    var m := KeySort.FirstMatch(KeySort.Reverse(KeySort.Sort(es)), p);
    if m.Some? {
      var i :| 0 <= i < |es| && es[i] == m.value;
      assert es[i] == RunKey(fs, search, listing, i);
      forall j | 0 <= j < |listing| && j != i && HasFinal(fs, search, file, listing[j])
        ensures KeySort.Before(RunKey(fs, search, listing, j), RunKey(fs, search, listing, i))
      {
        assert es[j] == RunKey(fs, search, listing, j);
        assert es[j] in es && p(es[j]) && es[j].pos != es[i].pos;
      }
    }
  }

  /** The file returned is the one in the most recently modified run directory
      holding final weights, and `None` means no listed directory holds one. */
  lemma LatestIsNewest(fs: FileSystem, cfg: ProjectConfig, mode: string)
    requires SearchPath(cfg, mode) in fs.dirs
    ensures var search := SearchPath(cfg, mode);
      var file := FinalWeightsName(cfg.compoundCoef);
      var listing := fs.dirs[search];
      var r := LatestWeights(fs, cfg, mode);
      (r.value.None? <==> forall d :: d in listing ==> !HasFinal(fs, search, file, d)) &&
      (r.value.Some? ==>
        exists i :: 0 <= i < |listing| && HasFinal(fs, search, file, listing[i]) &&
          r.value.value == Paths.Join(Paths.Join(search, listing[i]), file) &&
          forall j :: 0 <= j < |listing| && j != i && HasFinal(fs, search, file, listing[j]) ==>
            KeySort.Before(RunKey(fs, search, listing, j), RunKey(fs, search, listing, i)))
  {
    var search := SearchPath(cfg, mode);
    var file := FinalWeightsName(cfg.compoundCoef);
    NewestWithWeightsNone(fs, search, file, fs.dirs[search]);
    NewestWithWeightsSome(fs, search, file, fs.dirs[search]);
  }

  /** `train_hybridnet` asking for the latest KeypointDetect weights never
      fails to load them: it either finds a file or falls back to random
      initialisation. It only fails when the search directory is missing, and
      then by raising. */
  lemma LatestKeypointWeightsLoad(fs: FileSystem, cfg: ProjectConfig)
    ensures var r := LatestWeights(fs, cfg, "KeypointDetect");
      r.Success? ==> LoadWeightsKeypointDetect(fs, r.value)
  {
  }

  /** The epoch count: an explicit count wins; otherwise CenterDetect and
      KeypointDetect take theirs from the project, and any other mode has
      none. */
  function EpochsEfficientTrack(cfg: ProjectConfig, mode: string, numEpochs: Option<int>): (r: Option<int>)
    ensures numEpochs.Some? ==> r == numEpochs
    ensures r.None? <==> numEpochs.None? && mode != "CenterDetect" && mode != "KeypointDetect"
    ensures numEpochs.None? && r.Some? ==>
              r.value == if mode == "CenterDetect" then cfg.centerDetectEpochs else cfg.keypointDetectEpochs
  {
    if numEpochs.Some? then numEpochs
    else if mode == "CenterDetect" then Some(cfg.centerDetectEpochs)
    else if mode == "KeypointDetect" then Some(cfg.keypointDetectEpochs)
    else None
  }

  /** The TensorBoard directory: `<project>/logs/<mode>` for an absolute
      project name, `parent/root/<project>/logs/<mode>` otherwise. */
  function LogDir(cfg: ProjectConfig, projectName: string, mode: string): string {
    if Paths.IsAbs(projectName) then Paths.JoinAll([projectName, "logs", mode])
    else Paths.JoinAll([cfg.parentDir, cfg.projectsRoot, projectName, "logs", mode])
  }

  /** The absolute-name branch is redundant: joining an absolute project name
      onto `parent/root` discards them, so both branches compute
      `os.path.join(parent, root, project, 'logs', mode)`. */
  lemma LogDirIsOneJoin(cfg: ProjectConfig, projectName: string, mode: string)
    ensures LogDir(cfg, projectName, mode) ==
            Paths.Join(Paths.Join(Paths.JoinAll([cfg.parentDir, cfg.projectsRoot, projectName]), "logs"), mode)
  {
    Paths.JoinAll5(cfg.parentDir, cfg.projectsRoot, projectName, "logs", mode);
    Paths.JoinAll3(cfg.parentDir, cfg.projectsRoot, projectName);
    Paths.JoinAll3(projectName, "logs", mode);
  }

  /** Whatever the branch, a relative mode's logs live in `.../logs/<mode>`. */
  lemma LogDirEndsWithMode(cfg: ProjectConfig, projectName: string, mode: string)
    requires !Paths.IsAbs(mode)
    ensures Paths.EndsWith(LogDir(cfg, projectName, mode), "logs/" + mode)
  {
    LogDirIsOneJoin(cfg, projectName, mode);
    assert "logs" + "/" == "logs/";
    assert !Paths.EndsWithSep("logs") && !Paths.IsAbs("logs");
    Paths.JoinSuffix(Paths.JoinAll([cfg.parentDir, cfg.projectsRoot, projectName]), "logs", mode);
    assert "logs" + "/" + mode == "logs/" + mode;
  }

  /** With a relative root, project name and mode, the logs lie under the
      parent directory; an absolute project name escapes it. */
  lemma LogDirUnderParent(cfg: ProjectConfig, projectName: string, mode: string)
    ensures !Paths.IsAbs(cfg.projectsRoot) && !Paths.IsAbs(projectName) && !Paths.IsAbs(mode) ==>
              cfg.parentDir <= LogDir(cfg, projectName, mode)
    ensures Paths.IsAbs(projectName) && !Paths.IsAbs(mode) ==> projectName <= LogDir(cfg, projectName, mode)
  {
    var p, root := cfg.parentDir, cfg.projectsRoot;
    LogDirIsOneJoin(cfg, projectName, mode);
    Paths.JoinAll3(p, root, projectName);
    var a := Paths.Join(p, root);
    var b := Paths.Join(a, projectName);
    var c := Paths.Join(b, "logs");
    Paths.JoinKeeps(p, root);
    Paths.JoinKeeps(a, projectName);
    Paths.JoinKeeps(b, "logs");
    Paths.JoinKeeps(c, mode);
  }

  /** The loaders of an EfficientTrack model, which are not part of this
      model: the newest saved weights it finds, and whether each kind of load
      succeeds. */
  datatype EfficientTrackLoaders = EfficientTrackLoaders(
    latest: Option<string>,
    loadWeights: Option<string> -> bool,
    loadEcoSet: bool,
    loadPose: string -> bool)

  /** Whether the weights a source asks for load. */
  function Found(src: WeightSource, l: EfficientTrackLoaders): bool {
    match src
    case Latest => l.loadWeights(l.latest)
    case NoWeights => true
    case EcoSet => l.loadEcoSet
    case PosePretrain(n) => l.loadPose(n)
    case WeightsPath(p) => l.loadWeights(Some(p))
  }

  /** How `train_efficienttrack` ends. */
  datatype EfficientTrackRun =
    | ProjectNotLoaded
    | WeightsNotFound
    | Trained(epochs: Option<int>, logDir: string)

  /** What the call returns: `None`, `False` or `True`. */
  function Returned(run: EfficientTrackRun): Option<bool> {
    match run
    case ProjectNotLoaded => None
    case WeightsNotFound => Some(false)
    case Trained(_, _) => Some(true)
  }

  /** `train_efficienttrack` up to the training call; `project` is the loaded
      project's configuration, `None` when loading failed. */
  function TrainEfficientTrack(project: Option<ProjectConfig>, mode: string, projectName: string,
                               numEpochs: Option<int>, weights: Option<string>,
                               l: EfficientTrackLoaders): (r: EfficientTrackRun)
    ensures r.ProjectNotLoaded? <==> project.None?
    ensures r.Trained? ==> r.epochs == EpochsEfficientTrack(project.value, mode, numEpochs)
    ensures r.Trained? ==> r.logDir == LogDir(project.value, projectName, mode)
  {
    match project
    case None => ProjectNotLoaded
    case Some(cfg) =>
      if !Found(ClassifyEfficientTrack(weights), l) then WeightsNotFound
      else Trained(EpochsEfficientTrack(cfg, mode, numEpochs), LogDir(cfg, projectName, mode))
  }

  /** Training starts exactly when the project loads and the requested weights
      load; without weights the call returns `False` first. Asking for no
      weights always trains, and a pose name is never read as a path. */
  lemma NoTrainingWithoutWeights(project: Option<ProjectConfig>, mode: string, projectName: string,
                                 numEpochs: Option<int>, weights: Option<string>, l: EfficientTrackLoaders)
    ensures var r := TrainEfficientTrack(project, mode, projectName, numEpochs, weights, l);
      (r.Trained? <==> project.Some? && Found(ClassifyEfficientTrack(weights), l)) &&
      (Returned(r) == Some(false) <==> project.Some? && !Found(ClassifyEfficientTrack(weights), l)) &&
      (project.Some? && (weights.None? || weights == Some("None")) ==> Returned(r) == Some(true)) &&
      (project.Some? && weights.Some? && weights.value in PosePretrainNames ==>
         (r.Trained? <==> l.loadPose(weights.value)))
  {
  }

  /** The loaders of a HybridNet model, which are not part of this model. */
  datatype HybridNetLoaders = HybridNetLoaders(latest: Option<string>, loadWeights: Option<string> -> bool)

  /** How `train_hybridnet` ends; it returns `None` in every case. */
  datatype HybridNetRun =
    | HybridProjectNotLoaded
    | ListingRaised(error: ListingError)
    | KeypointWeightsNotFound
    | HybridWeightsNotFound
    | HybridTrained(epochs: int, logDir: string, keypointWeights: Option<string>)

  /** The path handed to `load_weights_keypoint_detect`, or a listing error.
      An explicit keypoint path hands over the HybridNet `weights` argument
      instead, as line 162 of jarvis/train_interface.py does. */
  function KeypointLoadPath(fs: FileSystem, cfg: ProjectConfig, weightsKeypoint: Option<string>,
                            weights: Option<string>): (r: Option<Result<Option<string>, ListingError>>)
    ensures r.None? <==> ClassifyHybrid(weightsKeypoint).NoWeights?
    ensures ClassifyHybrid(weightsKeypoint).WeightsPath? ==> r == Some(Success(weights))
  {
    match ClassifyHybrid(weightsKeypoint)
    case Latest => Some(LatestWeights(fs, cfg, "KeypointDetect"))
    case NoWeights => None
    case _ => Some(Success(weights))
  }

  /** Whether the HybridNet weights a source asks for load. */
  function HybridFound(src: WeightSource, l: HybridNetLoaders): bool {
    match src
    case Latest => l.loadWeights(l.latest)
    case NoWeights => true
    case WeightsPath(p) => l.loadWeights(Some(p))
    case EcoSet => false           // `ClassifyHybrid` never yields these two
    case PosePretrain(_) => false
  }

  /** `train_hybridnet` up to the training call. */
  function TrainHybridNet(project: Option<ProjectConfig>, fs: FileSystem, projectName: string,
                          numEpochs: Option<int>, weightsKeypoint: Option<string>,
                          weights: Option<string>, l: HybridNetLoaders): (r: HybridNetRun)
    ensures r.HybridProjectNotLoaded? <==> project.None?
    ensures r.HybridTrained? ==> r.epochs == (if numEpochs.Some? then numEpochs.value else project.value.hybridNetEpochs)
    ensures r.HybridTrained? ==> r.logDir == LogDir(project.value, projectName, "HybridNet")
    ensures r.HybridTrained? ==> HybridFound(ClassifyHybrid(weights), l)
  {
    match project
    case None => HybridProjectNotLoaded
    case Some(cfg) =>
      var load := KeypointLoadPath(fs, cfg, weightsKeypoint, weights);
      if load.Some? && load.value.Failure? then ListingRaised(load.value.error)
      else
        var keypointWeights := if load.Some? then load.value.value else None;
        if load.Some? && !LoadWeightsKeypointDetect(fs, keypointWeights) then KeypointWeightsNotFound
        else if !HybridFound(ClassifyHybrid(weights), l) then HybridWeightsNotFound
        else
          var epochs := if numEpochs.Some? then numEpochs.value else cfg.hybridNetEpochs;
          HybridTrained(epochs, LogDir(cfg, projectName, "HybridNet"), keypointWeights)
  }

  /** The keypoint path is never read: any two explicit keypoint paths give
      the same run, the keypoint network receives the HybridNet `weights`
      argument, and the keypoint step fails exactly when that argument is
      neither `None` nor an existing file. */
  lemma KeypointPathIgnored(project: Option<ProjectConfig>, fs: FileSystem, projectName: string,
                            numEpochs: Option<int>, p: string, q: string,
                            weights: Option<string>, l: HybridNetLoaders)
    requires p != "latest" && p != "None" && q != "latest" && q != "None"
    ensures TrainHybridNet(project, fs, projectName, numEpochs, Some(p), weights, l) ==
            TrainHybridNet(project, fs, projectName, numEpochs, Some(q), weights, l)
    ensures var r := TrainHybridNet(project, fs, projectName, numEpochs, Some(p), weights, l);
      (r.HybridTrained? ==> r.keypointWeights == weights) &&
      (r.KeypointWeightsNotFound? <==> project.Some? && weights.Some? && weights.value !in fs.files)
  {
  }

  /** With the latest keypoint weights requested, the keypoint step never
      reports missing weights; the run raises only when the search directory
      does not exist. */
  lemma LatestKeypointNeverMissing(project: Option<ProjectConfig>, fs: FileSystem, projectName: string,
                                   numEpochs: Option<int>, weights: Option<string>, l: HybridNetLoaders)
    ensures var r := TrainHybridNet(project, fs, projectName, numEpochs, Some("latest"), weights, l);
      !r.KeypointWeightsNotFound? &&
      (r.ListingRaised? <==> project.Some? && SearchPath(project.value, "KeypointDetect") !in fs.dirs)
  {
    if project.Some? {
      LatestKeypointWeightsLoad(fs, project.value);
    }
  }
}
