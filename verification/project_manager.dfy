/** Project loading and creation in lib/config/project_manager.py, as far as
    they decide where a project's configuration, saved models and logs live.
    The YAML merge is a parameter; directory creation is recorded as the list
    of paths `os.makedirs` is called on. */
module ProjectManager {
  import opened Wrappers
  import Paths

  /** The three modules that get a save path and a log path. */
  const Modules: seq<string> := ["efficientdet", "efficienttrack", "vortex"]

  /** The shared global configuration, restricted to what the manager writes. */
  datatype Config = Config(
    projectName: string,
    projectsRoot: string,
    dataset2D: string,
    dataset3D: Option<string>,
    savePaths: map<string, string>,
    logPaths: map<string, string>)

  /** A manager: its handle on the configuration (`None` until a project is
      loaded, or after a failed load) and the repository directory it sits in. */
  datatype Manager = Manager(cfg: Option<Config>, parentDir: string)

  /** Where a project's `config.yaml` lives. */
  function ConfigFile(parentDir: string, root: string, name: string): string {
    Paths.JoinAll([parentDir, root, name, "config.yaml"])
  }

  /** The save paths `load` records: under the parent directory, each ending
      in `models/<module>`. */
  function LoadSavePaths(parentDir: string, root: string, name: string): (r: map<string, string>)
    ensures r.Keys == set m | m in Modules
    ensures forall m :: m in r ==> Paths.EndsWith(r[m], "models/" + m)
  {
    LoadSavePathsEndWith(parentDir, root, name);
    map m | m in Modules :: Paths.JoinAll([parentDir, root, name, "models", m])
  }

  /** Every path `load` records for saving ends in `models/<module>`. */
  lemma LoadSavePathsEndWith(parentDir: string, root: string, name: string)
    ensures forall m :: m in Modules ==>
      Paths.EndsWith(Paths.JoinAll([parentDir, root, name, "models", m]), "models/" + m)
  {
    forall m | m in Modules
      ensures Paths.EndsWith(Paths.JoinAll([parentDir, root, name, "models", m]), "models/" + m)
    {
      SavePathEndsWith(parentDir, root, name, m);
    }
  }

  lemma SavePathEndsWith(parentDir: string, root: string, name: string, m: string)
    requires !Paths.IsAbs(m)
    ensures Paths.EndsWith(Paths.JoinAll([parentDir, root, name, "models", m]), "models/" + m)
  {
    Paths.JoinAll5(parentDir, root, name, "models", m);
    assert !Paths.EndsWithSep("models") && !Paths.IsAbs("models");
    Paths.JoinSuffix(Paths.JoinAll([parentDir, root, name]), "models", m);
    assert "models" + "/" + m == "models/" + m;
  }

  /** The per-module directories `<root>/<name>/<kind>/<module>`, relative to
      the working directory: `create_new` records them as save paths
      (`kind` = `models`) and both `load` and `create_new` record them as log
      paths (`kind` = `logs`). */
  function ModuleDirs(root: string, name: string, kind: string): (r: map<string, string>)
    ensures r.Keys == set m | m in Modules
  {
    map m | m in Modules :: Paths.JoinAll([root, name, kind, m])
  }

  /** For a plain directory name `kind`, each module's directory ends in
      `<kind>/<module>`, whatever the projects root and project name. */
  lemma ModuleDirsEndWith(root: string, name: string, kind: string)
    requires kind != "" && !Paths.IsAbs(kind) && !Paths.EndsWithSep(kind)
    ensures forall m :: m in ModuleDirs(root, name, kind) ==>
      Paths.EndsWith(ModuleDirs(root, name, kind)[m], kind + "/" + m)
  {
    forall m | m in ModuleDirs(root, name, kind)
      ensures Paths.EndsWith(ModuleDirs(root, name, kind)[m], kind + "/" + m)
    {
      Paths.JoinAll4(root, name, kind, m);
      Paths.JoinSuffix(Paths.Join(root, name), kind, m);
    }
  }

  /** The manager and the global configuration after a call. */
  datatype Loaded = Loaded(manager: Manager, global: Config)

  /** `load`: the global configuration takes the project name whatever
      happens; without a `config.yaml` the manager's handle is cleared;
      otherwise the file is merged in (`merge`, not part of this model) and
      the save and log paths are set from the merged projects root. The
      manager's handle and the global configuration are one object. */
  function Load(m: Manager, global: Config, files: set<string>, projectName: string,
                merge: Config -> Config): (r: Loaded)
    ensures r.global.projectName == projectName || r.manager.cfg.Some?
    ensures r.manager.parentDir == m.parentDir
    ensures r.manager.cfg.None? <==> ConfigFile(m.parentDir, global.projectsRoot, projectName) !in files
    ensures r.manager.cfg.None? ==> r.global == global.(projectName := projectName)
    ensures r.manager.cfg.Some? ==> r.manager.cfg.value == r.global
    ensures r.manager.cfg.Some? ==>
              r.global.savePaths.Keys == r.global.logPaths.Keys == set m | m in Modules
  {
    var named := global.(projectName := projectName);
    if ConfigFile(m.parentDir, named.projectsRoot, projectName) !in files then
      Loaded(m.(cfg := None), named)
    else
      var merged := merge(named);
      var root := merged.projectsRoot;
      var loaded := merged.(savePaths := LoadSavePaths(m.parentDir, root, projectName),
                            logPaths := ModuleDirs(root, projectName, "logs"));
      Loaded(m.(cfg := Some(loaded)), loaded)
  }

  /** The configuration and the directories created by `create_new`, before
      its interactive dataset set-up and the template copy. */
  datatype Created = Created(cfg: Config, madeDirs: seq<string>)

  /** The directories the module loop creates, in order: per module, the log
      directory and then the save directory. */
  function LogThenSave(logs: map<string, string>, saves: map<string, string>, mods: seq<string>): (r: seq<string>)
    requires forall m :: m in mods ==> m in logs && m in saves
    ensures |r| == 2 * |mods|
    ensures forall m :: m in mods ==> logs[m] in r && saves[m] in r
  {
    if |mods| == 0 then []
    else [logs[mods[0]], saves[mods[0]]] + LogThenSave(logs, saves, mods[1..])
  }

  /** `create_new` up to `_init_dataset2D`: records the names, creates the
      project directory and, per module, the log and then the save
      directory, all relative to the working directory. */
  function CreateNew(global: Config, name: string, dataset2D: string, dataset3D: Option<string>): (r: Created)
    ensures r.cfg.projectName == name && r.cfg.dataset2D == dataset2D && r.cfg.dataset3D == dataset3D
    ensures r.cfg.projectsRoot == global.projectsRoot
    ensures r.cfg.savePaths == ModuleDirs(global.projectsRoot, name, "models")
    ensures r.cfg.logPaths == ModuleDirs(global.projectsRoot, name, "logs")
    ensures r.cfg.savePaths.Keys == r.cfg.logPaths.Keys == set m | m in Modules
    ensures forall m :: m in r.cfg.savePaths ==> r.cfg.savePaths[m] in r.madeDirs && r.cfg.logPaths[m] in r.madeDirs
    ensures |r.madeDirs| == 1 + 2 * |Modules| && r.madeDirs[0] == Paths.JoinAll([global.projectsRoot, name])
  {
    var root := global.projectsRoot;
    var saves := ModuleDirs(root, name, "models");
    var logs := ModuleDirs(root, name, "logs");
    var made := [Paths.JoinAll([root, name])] + LogThenSave(logs, saves, Modules);
    Created(global.(projectName := name, dataset2D := dataset2D, dataset3D := dataset3D,
                    savePaths := saves, logPaths := logs), made)
  }

  /** A loaded project's save path is the created project's save path joined
      onto the parent directory. */
  lemma LoadExtendsCreate(parentDir: string, root: string, name: string, mod: string)
    requires mod in Modules
    ensures LoadSavePaths(parentDir, root, name)[mod] ==
            Paths.Join(parentDir, ModuleDirs(root, name, "models")[mod])
  {
    var a := Paths.Join(root, name);
    var b := Paths.Join(a, "models");
    Paths.JoinAll5(parentDir, root, name, "models", mod);
    Paths.JoinAll3(parentDir, root, name);
    Paths.JoinAll4(root, name, "models", mod);
    calc {
      Paths.Join(parentDir, Paths.Join(b, mod));
      { Paths.JoinAssoc(parentDir, b, mod); }
      Paths.Join(Paths.Join(parentDir, b), mod);
      { Paths.JoinAssoc(parentDir, a, "models"); }
      Paths.Join(Paths.Join(Paths.Join(parentDir, a), "models"), mod);
      { Paths.JoinAssoc(parentDir, root, name); }
      Paths.Join(Paths.Join(Paths.Join(Paths.Join(parentDir, root), name), "models"), mod);
    }
  }

  /** Two managers in different directories loading the same project with the
      same merge record the same log paths, relative to the working directory
      as `create_new` records them, while each save path is the created one
      joined onto the manager's own directory. */
  lemma LogPathsIgnoreParent(m1: Manager, m2: Manager, global: Config, files: set<string>,
                             projectName: string, merge: Config -> Config)
    requires Load(m1, global, files, projectName, merge).manager.cfg.Some?
    requires Load(m2, global, files, projectName, merge).manager.cfg.Some?
    ensures Load(m1, global, files, projectName, merge).global.logPaths ==
            Load(m2, global, files, projectName, merge).global.logPaths ==
            ModuleDirs(merge(global.(projectName := projectName)).projectsRoot, projectName, "logs")
    ensures var root := merge(global.(projectName := projectName)).projectsRoot;
      forall mod :: mod in Modules ==>
        Load(m1, global, files, projectName, merge).global.savePaths[mod] ==
          Paths.Join(m1.parentDir, ModuleDirs(root, projectName, "models")[mod])
  {
    var root := merge(global.(projectName := projectName)).projectsRoot;
    forall mod | mod in Modules
      ensures LoadSavePaths(m1.parentDir, root, projectName)[mod] ==
              Paths.Join(m1.parentDir, ModuleDirs(root, projectName, "models")[mod])
    {
      LoadExtendsCreate(m1.parentDir, root, projectName, mod);
    }
  }

  /** With a relative projects root and project name, every save path `load`
      records lies under the parent directory. */
  lemma SavePathsUnderParent(parentDir: string, root: string, name: string, mod: string)
    requires mod in Modules && !Paths.IsAbs(root) && !Paths.IsAbs(name)
    ensures parentDir <= LoadSavePaths(parentDir, root, name)[mod]
  {
    Paths.JoinAll5(parentDir, root, name, "models", mod);
    Paths.JoinAll3(parentDir, root, name);
    var a := Paths.Join(parentDir, root);
    var b := Paths.Join(a, name);
    var c := Paths.Join(b, "models");
    Paths.JoinKeeps(parentDir, root);
    Paths.JoinKeeps(a, name);
    Paths.JoinKeeps(b, "models");
    assert mod[0] != '/';
    Paths.JoinKeeps(c, mod);
  }
}
