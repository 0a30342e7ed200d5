/**
  The older cycler of script/rename_folder.py (`check_active`): the folder
  lives in the directory named by an environment variable, there is no
  first-run branch and no existence test of the base folder. If the default
  alias is absent the alternative branch is taken unconditionally.
*/
module ScriptRenameFolder {
  import opened Text
  import opened FileTree
  import opened Environment
  import RF = RenameFolder

  /** The settings (the NamedTuple Constants); HOME names an environment variable. */
  datatype Constants = Constants(FOLDER: string, DEFAULT: string, ALT: string, HOME: string, JOIN: string)

  /** `Constants()`, the settings the script runs with. */
  const Defaults: Constants := Constants(".m2", "default", "Carrefour", "HOME", "_")

  /** `self.base`: `conform_home(FOLDER)`, the folder inside the home directory. */
  function Base(c: Constants, env: map<string, string>): string {
    HomeDirectory(env, c.HOME) + "/" + c.FOLDER
  }

  /** `conform_path(surname)`: the base path, the join and the surname. */
  function ConformPath(c: Constants, env: map<string, string>, surname: string): string {
    Base(c, env) + c.JOIN + surname
  }

  function DefaultPath(c: Constants, env: map<string, string>): string { ConformPath(c, env, c.DEFAULT) }

  function AltPath(c: Constants, env: map<string, string>): string { ConformPath(c, env, c.ALT) }

  /** `_check_existence(surname)`: whether the alias with that surname exists. */
  predicate CheckExistence(c: Constants, env: map<string, string>, fs: map<string, Content>, surname: string) {
    ConformPath(c, env, surname) in fs
  }

  predicate WellFormed(c: Constants) {
    c.JOIN != "" && c.DEFAULT != c.ALT
  }

  /** With the shipped settings the aliases are HOME/.m2_default and HOME/.m2_Carrefour. */
  lemma DefaultPaths(env: map<string, string>)
    ensures DefaultPath(Defaults, env) == HomeDirectory(env, "HOME") + "/.m2_default"
    ensures AltPath(Defaults, env) == HomeDirectory(env, "HOME") + "/.m2_Carrefour"
    ensures "HOME" !in env ==> Base(Defaults, env) == "None/.m2"
  {
  }

  lemma PathsDistinct(c: Constants, env: map<string, string>)
    requires WellFormed(c)
    ensures Base(c, env) != DefaultPath(c, env) && Base(c, env) != AltPath(c, env)
    ensures DefaultPath(c, env) != AltPath(c, env)
  {
    var b := Base(c, env) + c.JOIN;
    assert |DefaultPath(c, env)| > |Base(c, env)| && |AltPath(c, env)| > |Base(c, env)|;
    assert DefaultPath(c, env)[|b|..] == c.DEFAULT;
    assert AltPath(c, env)[|b|..] == c.ALT;
  }

  /** One call of `check_active` on the tree `fs`. */
  function CheckActiveStep(c: Constants, env: map<string, string>, fs: map<string, Content>): Step {
    if CheckExistence(c, env, fs, c.DEFAULT) then
      Swap(fs, Base(c, env), AltPath(c, env), DefaultPath(c, env), RF.Achievement(c.DEFAULT, c.FOLDER))
    else
      Swap(fs, Base(c, env), DefaultPath(c, env), AltPath(c, env), RF.Achievement(c.ALT, c.FOLDER))
  }

  /** `check_active`: the tree after the call and the outcome are those of CheckActiveStep. */
  method CheckActive(c: Constants, env: map<string, string>, fs: FileSystem) returns (o: Outcome)
    modifies fs
    ensures Step(o, fs.tree) == CheckActiveStep(c, env, old(fs.tree))
  {
    if DefaultPath(c, env) in fs.tree {
      o := SwapFolders(fs, Base(c, env), AltPath(c, env), DefaultPath(c, env), RF.Achievement(c.DEFAULT, c.FOLDER));
    } else {
      o := SwapFolders(fs, Base(c, env), DefaultPath(c, env), AltPath(c, env), RF.Achievement(c.ALT, c.FOLDER));
    }
  }

  /** Default stored: base to the alternative's slot, default to base. */
  lemma DefaultBranch(c: Constants, env: map<string, string>, fs: map<string, Content>)
    requires WellFormed(c)
    requires Base(c, env) in fs && DefaultPath(c, env) in fs && AltPath(c, env) !in fs
    ensures CheckActiveStep(c, env, fs)
         == Step(Active(RF.Achievement(c.DEFAULT, c.FOLDER)), RF.Toggled(fs, Base(c, env), DefaultPath(c, env), AltPath(c, env)))
  {
    PathsDistinct(c, env);
    var fs1 := Moved(fs, Base(c, env), AltPath(c, env));
    assert Moved(fs1, DefaultPath(c, env), Base(c, env)) == RF.Toggled(fs, Base(c, env), DefaultPath(c, env), AltPath(c, env));
  }

  /** Default absent and alternative stored: base to the default's slot, alternative to base. */
  lemma AltBranch(c: Constants, env: map<string, string>, fs: map<string, Content>)
    requires WellFormed(c)
    requires Base(c, env) in fs && AltPath(c, env) in fs && DefaultPath(c, env) !in fs
    ensures CheckActiveStep(c, env, fs)
         == Step(Active(RF.Achievement(c.ALT, c.FOLDER)), RF.Toggled(fs, Base(c, env), AltPath(c, env), DefaultPath(c, env)))
  {
    PathsDistinct(c, env);
    var fs1 := Moved(fs, Base(c, env), DefaultPath(c, env));
    assert Moved(fs1, AltPath(c, env), Base(c, env)) == RF.Toggled(fs, Base(c, env), AltPath(c, env), DefaultPath(c, env));
  }

  /**
    Neither alias exists: the first rename has already moved the base folder
    to the default's slot when the second one raises FileNotFoundError,
    which the script does not catch.
  */
  lemma HalfDoneWithoutAliases(c: Constants, env: map<string, string>, fs: map<string, Content>)
    requires WellFormed(c)
    requires Base(c, env) in fs && DefaultPath(c, env) !in fs && AltPath(c, env) !in fs
    ensures CheckActiveStep(c, env, fs) == Step(NotFound, Moved(fs, Base(c, env), DefaultPath(c, env)))
    ensures Base(c, env) !in CheckActiveStep(c, env, fs).tree
  {
    PathsDistinct(c, env);
  }

  /** Nothing exists: the first rename raises, uncaught, and the tree is unchanged. */
  lemma NothingFound(c: Constants, env: map<string, string>, fs: map<string, Content>)
    requires Base(c, env) !in fs && DefaultPath(c, env) !in fs
    ensures CheckActiveStep(c, env, fs) == Step(NotFound, fs)
  {
  }

  /** Two calls from "base and default" restore the tree exactly. */
  lemma RoundTrip(c: Constants, env: map<string, string>, fs: map<string, Content>)
    requires WellFormed(c)
    requires Base(c, env) in fs && DefaultPath(c, env) in fs && AltPath(c, env) !in fs
    ensures CheckActiveStep(c, env, CheckActiveStep(c, env, fs).tree).tree == fs
    ensures CheckActiveStep(c, env, CheckActiveStep(c, env, fs).tree).outcome == Active(RF.Achievement(c.ALT, c.FOLDER))
  {
    PathsDistinct(c, env);
    DefaultBranch(c, env, fs);
    var fs1 := CheckActiveStep(c, env, fs).tree;
    AltBranch(c, env, fs1);
    assert RF.Toggled(fs1, Base(c, env), AltPath(c, env), DefaultPath(c, env)) == fs;
  }

  /** The settings of the newer cycler that name the same three paths. */
  function AsNewer(c: Constants, env: map<string, string>): RF.Constants {
    RF.Constants(c.FOLDER, c.DEFAULT, c.ALT, HomeDirectory(env, c.HOME), c.JOIN)
  }

  /**
    On the steady state (the active folder and exactly one alias) the old
    and the new cycler do the same; they differ only off it.
  */
  lemma AgreesWithRenameFolder(c: Constants, env: map<string, string>, fs: map<string, Content>)
    requires WellFormed(c)
    requires RF.Steady(AsNewer(c, env), fs)
    ensures CheckActiveStep(c, env, fs) == RF.Cycle(AsNewer(c, env), fs)
  {
    var n := AsNewer(c, env);
    assert Base(c, env) == RF.Base(n) && DefaultPath(c, env) == RF.DefaultPath(n) && AltPath(c, env) == RF.AltPath(n);
  }

  lemma DefaultCapitalized()
    ensures Capitalize("default") == "Default"
  {
    CapitalizeWord("default");
  }

  /** The shipped settings announce "Default .m2 active!" when the default alias was stored. */
  lemma DefaultMessage()
    ensures RF.Achievement(Defaults.DEFAULT, Defaults.FOLDER) == "Default .m2 active!"
  {
    DefaultCapitalized();
  }
}
