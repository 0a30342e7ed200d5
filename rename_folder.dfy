/**
  The folder alias cycler of helpful_cakes/rename_folder.py (the class
  RenameFolder and the module function error_message; the copy in
  helpful_cakes/model/rename_folder_model.py is the same code).

  The folder `FOLDER` under `WORKING_DIRECTORY` is the active version; the
  inactive one waits under the same name with `JOIN` and a surname appended,
  `DEFAULT` or `ALT`. Each call swaps the two and says which is now active.
*/
module RenameFolder {
  import opened Wrappers
  import opened Text
  import opened FileTree

  /** The settings of one run (the NamedTuple Constants). */
  datatype Constants = Constants(FOLDER: string, DEFAULT: string, ALT: string, WORKING_DIRECTORY: string, JOIN: string)

  /** `Constants()`: the field defaults. */
  const Defaults: Constants := Constants("", "original", "alt", "", "_")

  /** The parsed command line: a flag that was not given is None. */
  datatype Arguments = Arguments(
    folder: string, path: Option<string>, join: Option<string>,
    default: Option<string>, alternative: Option<string>)

  /** Python truthiness of an optional string: given and not empty. */
  predicate Truthy(o: Option<string>) { o.Some? && o.value != "" }

  /**
    `self.new(arg_parser, cwd)`: the folder is taken as given; every other
    setting is the flag's value when that is truthy and otherwise falls back,
    the path to `cwd` and join, default and alternative to those of `self`.
  */
  function New(self: Constants, args: Arguments, cwd: string): (c: Constants)
    ensures c.FOLDER == args.folder
    ensures c.WORKING_DIRECTORY == (if Truthy(args.path) then args.path.value else cwd)
    ensures c.JOIN == (if Truthy(args.join) then args.join.value else self.JOIN)
    ensures c.DEFAULT == (if Truthy(args.default) then args.default.value else self.DEFAULT)
    ensures c.ALT == (if Truthy(args.alternative) then args.alternative.value else self.ALT)
  {
    var folderPath := if args.path.Some? && args.path.value != "" then args.path.value else cwd;
    var folderJoin := if args.join.Some? && args.join.value != "" then args.join.value else self.JOIN;
    var defaultName := if args.default.Some? && args.default.value != "" then args.default.value else self.DEFAULT;
    var alternativeName := if args.alternative.Some? && args.alternative.value != "" then args.alternative.value else self.ALT;
    Constants(args.folder, defaultName, alternativeName, folderPath, folderJoin)
  }

  /** Settings built from the defaults never have an empty join or surname. */
  lemma NewFromDefaultsNonEmpty(args: Arguments, cwd: string)
    ensures New(Defaults, args, cwd).JOIN != ""
    ensures New(Defaults, args, cwd).DEFAULT != "" && New(Defaults, args, cwd).ALT != ""
    ensures !Truthy(args.join) ==> New(Defaults, args, cwd).JOIN == "_"
    ensures !Truthy(args.default) ==> New(Defaults, args, cwd).DEFAULT == "original"
    ensures !Truthy(args.alternative) ==> New(Defaults, args, cwd).ALT == "alt"
  {
  }

  /** `conform_home(folder)`: the folder inside the working directory. */
  function ConformHome(c: Constants, folder: string): string {
    c.WORKING_DIRECTORY + "/" + folder
  }

  /** `self.base`: the active folder. */
  function Base(c: Constants): string {
    ConformHome(c, c.FOLDER)
  }

  /** `conform_path(surname)`: the base path, the join and the surname. */
  function ConformPath(c: Constants, surname: string): string {
    Base(c) + c.JOIN + surname
  }

  function DefaultPath(c: Constants): string { ConformPath(c, c.DEFAULT) }

  function AltPath(c: Constants): string { ConformPath(c, c.ALT) }

  /** The settings under which the three paths are pairwise distinct. */
  predicate WellFormed(c: Constants) {
    c.JOIN != "" && c.DEFAULT != c.ALT
  }

  /**
    With a non-empty join neither alias is the base path, and the two
    aliases coincide exactly when the two surnames do.
  */
  lemma PathsDistinct(c: Constants)
    requires c.JOIN != ""
    ensures Base(c) != DefaultPath(c) && Base(c) != AltPath(c)
    ensures DefaultPath(c) == AltPath(c) <==> c.DEFAULT == c.ALT
  {
    var b := Base(c) + c.JOIN;
    assert |DefaultPath(c)| > |Base(c)| && |AltPath(c)| > |Base(c)|;
    if DefaultPath(c) == AltPath(c) {
      assert DefaultPath(c)[|b|..] == c.DEFAULT;
      assert AltPath(c)[|b|..] == c.ALT;
    }
  }

  /** Every alias starts with the base path followed by the join. */
  lemma AliasesExtendBase(c: Constants)
    ensures StartsWith(DefaultPath(c), Base(c) + c.JOIN)
    ensures StartsWith(AltPath(c), Base(c) + c.JOIN)
    ensures DefaultPath(c) == c.WORKING_DIRECTORY + "/" + c.FOLDER + c.JOIN + c.DEFAULT
    ensures AltPath(c) == c.WORKING_DIRECTORY + "/" + c.FOLDER + c.JOIN + c.ALT
  {
    var b := Base(c) + c.JOIN;
    assert DefaultPath(c)[..|b|] == b;
    assert AltPath(c)[..|b|] == b;
  }

  /**
    `achievement(target, folder)`: the capitalized surname, a space, the
    folder and " active!".
  */
  function Achievement(target: string, folder: string): (m: string)
    ensures |m| == |target| + |folder| + 9
    ensures m[..|target|] == Capitalize(target) && m[|target|] == ' '
    ensures m[|target| + 1..|target| + 1 + |folder|] == folder && m[|m| - 8..] == " active!"
  {
    var m := Capitalize(target) + " " + folder + " active!";
    assert m[..|target|] == Capitalize(target);
    assert m[|target| + 1..|target| + 1 + |folder|] == folder;
    m
  }

  /** The message of the first run: "Create new /", the folder, " at " and the working directory. */
  function CreateMessage(c: Constants): (m: string)
    ensures |m| == |c.FOLDER| + |c.WORKING_DIRECTORY| + 16
    ensures m[..12] == "Create new /" && m[12..12 + |c.FOLDER|] == c.FOLDER
    ensures m[12 + |c.FOLDER|..16 + |c.FOLDER|] == " at " && m[16 + |c.FOLDER|..] == c.WORKING_DIRECTORY
  {
    var m := "Create new /" + c.FOLDER + " at " + c.WORKING_DIRECTORY;
    assert m[..12] == "Create new /";
    assert m[12..12 + |c.FOLDER|] == c.FOLDER;
    assert m[12 + |c.FOLDER|..16 + |c.FOLDER|] == " at ";
    assert m[16 + |c.FOLDER|..] == c.WORKING_DIRECTORY;
    m
  }

  /**
    `error_message(constants)`: what the caller logs on FileNotFoundError,
    "Folder not found: " and then the folder and the path in a braced
    block, each at a fixed place.
  */
  function ErrorMessage(c: Constants): (m: string)
    ensures StartsWith(m, "Folder not found: ")
    ensures |m| == |c.FOLDER| + |c.WORKING_DIRECTORY| + 49
    ensures m[..34] == "Folder not found: \n {\n    folder: "
    ensures m[34..34 + |c.FOLDER|] == c.FOLDER
    ensures m[34 + |c.FOLDER|..46 + |c.FOLDER|] == ",\n    path: "
    ensures m[46 + |c.FOLDER|..|m| - 3] == c.WORKING_DIRECTORY
    ensures m[|m| - 3..] == "\n }"
  {
    var head := "Folder not found: " + "\n {\n    folder: ";
    var m := head + c.FOLDER + ",\n    path: " + c.WORKING_DIRECTORY + "\n }";
    assert |head| == 34;
    assert m[..18] == "Folder not found: ";
    assert m[..34] == head;
    assert m[34..34 + |c.FOLDER|] == c.FOLDER;
    assert m[34 + |c.FOLDER|..46 + |c.FOLDER|] == ",\n    path: ";
    assert m[46 + |c.FOLDER|..|m| - 3] == c.WORKING_DIRECTORY;
    m
  }

  /**
    One call of `rename_folder` on the tree `fs`: the default alias is tested
    first, then the alternative, then the base folder, and only the first
    test that holds acts. On the first run an empty directory is made at the
    alternative's path and then promoted to the base name.
  */
  function Cycle(c: Constants, fs: map<string, Content>): Step {
    if DefaultPath(c) in fs then
      Swap(fs, Base(c), AltPath(c), DefaultPath(c), Achievement(c.DEFAULT, c.FOLDER))
    else if AltPath(c) in fs then
      Swap(fs, Base(c), DefaultPath(c), AltPath(c), Achievement(c.ALT, c.FOLDER))
    else if Base(c) in fs then
      var s := Swap(Made(fs, AltPath(c)), Base(c), DefaultPath(c), AltPath(c), Achievement(c.ALT, c.FOLDER));
      if s.outcome.Active? then Step(Active(CreateMessage(c)), s.tree) else s
    else
      Step(NotFound, fs)
  }

  /** `rename_folder`: the tree after the call and the outcome are those of Cycle. */
  method RenameFolder(c: Constants, fs: FileSystem) returns (o: Outcome)
    modifies fs
    ensures Step(o, fs.tree) == Cycle(c, old(fs.tree))
  {
    if DefaultPath(c) in fs.tree {
      o := SwapFolders(fs, Base(c), AltPath(c), DefaultPath(c), Achievement(c.DEFAULT, c.FOLDER));
    } else if AltPath(c) in fs.tree {
      o := SwapFolders(fs, Base(c), DefaultPath(c), AltPath(c), Achievement(c.ALT, c.FOLDER));
    } else if Base(c) in fs.tree {
      fs.Mkdir(AltPath(c));
      var r := SwapFolders(fs, Base(c), DefaultPath(c), AltPath(c), Achievement(c.ALT, c.FOLDER));
      o := if r.Active? then Active(CreateMessage(c)) else r;
    } else {
      o := NotFound;
    }
  }

  /** The tree after the active folder and a stored alias trade places. */
  function Toggled(fs: map<string, Content>, base: string, stored: string, freed: string): map<string, Content>
    requires base in fs && stored in fs
  {
    (fs - {stored})[base := fs[stored]][freed := fs[base]]
  }

  /** Default stored: the base goes to the alternative's slot and the default becomes the base. */
  lemma DefaultBranch(c: Constants, fs: map<string, Content>)
    requires WellFormed(c)
    requires Base(c) in fs && DefaultPath(c) in fs && AltPath(c) !in fs
    ensures Cycle(c, fs) == Step(Active(Achievement(c.DEFAULT, c.FOLDER)), Toggled(fs, Base(c), DefaultPath(c), AltPath(c)))
  {
    PathsDistinct(c);
    var fs1 := Moved(fs, Base(c), AltPath(c));
    assert Moved(fs1, DefaultPath(c), Base(c)) == Toggled(fs, Base(c), DefaultPath(c), AltPath(c));
  }

  /** Alternative stored: the base goes to the default's slot and the alternative becomes the base. */
  lemma AltBranch(c: Constants, fs: map<string, Content>)
    requires WellFormed(c)
    requires Base(c) in fs && AltPath(c) in fs && DefaultPath(c) !in fs
    ensures Cycle(c, fs) == Step(Active(Achievement(c.ALT, c.FOLDER)), Toggled(fs, Base(c), AltPath(c), DefaultPath(c)))
  {
    PathsDistinct(c);
    var fs1 := Moved(fs, Base(c), DefaultPath(c));
    assert Moved(fs1, AltPath(c), Base(c)) == Toggled(fs, Base(c), AltPath(c), DefaultPath(c));
  }

  /** First run: the old content is stored under the default alias and the base is a new empty folder. */
  lemma FirstRun(c: Constants, fs: map<string, Content>)
    requires WellFormed(c)
    requires Base(c) in fs && DefaultPath(c) !in fs && AltPath(c) !in fs
    ensures Cycle(c, fs) == Step(Active(CreateMessage(c)), fs[Base(c) := EmptyDir][DefaultPath(c) := fs[Base(c)]])
  {
    PathsDistinct(c);
    var fs0 := Made(fs, AltPath(c));
    var fs1 := Moved(fs0, Base(c), DefaultPath(c));
    assert Moved(fs1, AltPath(c), Base(c)) == fs[Base(c) := EmptyDir][DefaultPath(c) := fs[Base(c)]];
  }

  /** None of the three folders exists: FileNotFoundError, and nothing changes. */
  lemma NothingFound(c: Constants, fs: map<string, Content>)
    requires Base(c) !in fs && DefaultPath(c) !in fs && AltPath(c) !in fs
    ensures Cycle(c, fs) == Step(NotFound, fs)
  {
  }

  /**
    The default alias is tested first: when both aliases exist the call takes
    the default branch, whose first rename finds the alternative's slot taken.
    The refusal is this model's reading of a rename onto an existing path; on
    POSIX, `os.rename` onto an empty alternative directory replaces it.
  */
  lemma DefaultTestedFirst(c: Constants, fs: map<string, Content>)
    requires WellFormed(c)
    requires Base(c) in fs && DefaultPath(c) in fs && AltPath(c) in fs
    ensures Cycle(c, fs) == Step(Refused(AltPath(c)), fs)
  {
    PathsDistinct(c);
  }

  /** Whatever the outcome, no path other than the three is created, removed or changed. */
  lemma CycleFrame(c: Constants, fs: map<string, Content>, p: string)
    requires p != Base(c) && p != DefaultPath(c) && p != AltPath(c)
    ensures p in Cycle(c, fs).tree <==> p in fs
    ensures p in fs ==> Cycle(c, fs).tree[p] == fs[p]
  {
  }

  /** The steady state: the active folder and exactly one stored alias. */
  predicate Steady(c: Constants, fs: map<string, Content>) {
    Base(c) in fs && (DefaultPath(c) in fs <==> AltPath(c) !in fs)
  }

  /** Every successful call ends in the steady state. */
  lemma SuccessIsSteady(c: Constants, fs: map<string, Content>)
    requires WellFormed(c)
    requires Cycle(c, fs).outcome.Active?
    ensures Steady(c, Cycle(c, fs).tree)
  {
    PathsDistinct(c);
    if DefaultPath(c) in fs {
      SwapActive(fs, Base(c), AltPath(c), DefaultPath(c), Achievement(c.DEFAULT, c.FOLDER));
    } else if AltPath(c) in fs {
      SwapActive(fs, Base(c), DefaultPath(c), AltPath(c), Achievement(c.ALT, c.FOLDER));
    } else {
      SwapActive(Made(fs, AltPath(c)), Base(c), DefaultPath(c), AltPath(c), Achievement(c.ALT, c.FOLDER));
    }
  }

  /** From the steady state a call always succeeds, and the folder's contents are only moved. */
  lemma SteadyPreserved(c: Constants, fs: map<string, Content>)
    requires WellFormed(c) && Steady(c, fs)
    ensures Cycle(c, fs).outcome.Active?
    ensures Steady(c, Cycle(c, fs).tree)
    ensures DefaultPath(c) in fs ==> Cycle(c, fs).tree[Base(c)] == fs[DefaultPath(c)] && Cycle(c, fs).tree[AltPath(c)] == fs[Base(c)]
    ensures AltPath(c) in fs ==> Cycle(c, fs).tree[Base(c)] == fs[AltPath(c)] && Cycle(c, fs).tree[DefaultPath(c)] == fs[Base(c)]
  {
    if DefaultPath(c) in fs {
      DefaultBranch(c, fs);
    } else {
      AltBranch(c, fs);
    }
  }

  /** Two calls from "base and default" restore the tree exactly, announcing default then alternative. */
  lemma RoundTrip(c: Constants, fs: map<string, Content>)
    requires WellFormed(c)
    requires Base(c) in fs && DefaultPath(c) in fs && AltPath(c) !in fs
    ensures Cycle(c, fs).outcome == Active(Achievement(c.DEFAULT, c.FOLDER))
    ensures Cycle(c, Cycle(c, fs).tree).outcome == Active(Achievement(c.ALT, c.FOLDER))
    ensures Cycle(c, Cycle(c, fs).tree).tree == fs
  {
    PathsDistinct(c);
    DefaultBranch(c, fs);
    var fs1 := Cycle(c, fs).tree;
    AltBranch(c, fs1);
    assert Toggled(fs1, Base(c), AltPath(c), DefaultPath(c)) == fs;
  }

  /** The states of the cycler, read off the tree in the order the call tests them. */
  datatype State = DefaultStored | AltStored | Unrealized | Absent

  function Resolve(c: Constants, fs: map<string, Content>): (s: State)
    ensures s == Absent <==> Base(c) !in fs && DefaultPath(c) !in fs && AltPath(c) !in fs
  {
    if DefaultPath(c) in fs then DefaultStored
    else if AltPath(c) in fs then AltStored
    else if Base(c) in fs then Unrealized
    else Absent
  }

  /**
    The state machine: a successful call from a state with the active folder
    present moves default-stored to alternative-stored and back, and the
    first run to default-stored; the absent state always fails.
  */
  lemma Transitions(c: Constants, fs: map<string, Content>)
    requires WellFormed(c)
    ensures Resolve(c, fs) == Absent ==> Cycle(c, fs).outcome == NotFound
    ensures Base(c) in fs && Resolve(c, fs) == DefaultStored && AltPath(c) !in fs ==> Resolve(c, Cycle(c, fs).tree) == AltStored
    ensures Base(c) in fs && Resolve(c, fs) == AltStored ==> Resolve(c, Cycle(c, fs).tree) == DefaultStored
    ensures Resolve(c, fs) == Unrealized ==> Resolve(c, Cycle(c, fs).tree) == DefaultStored
  {
    PathsDistinct(c);
    if Base(c) in fs && Resolve(c, fs) == DefaultStored && AltPath(c) !in fs {
      DefaultBranch(c, fs);
    } else if Base(c) in fs && Resolve(c, fs) == AltStored {
      AltBranch(c, fs);
    } else if Resolve(c, fs) == Unrealized {
      FirstRun(c, fs);
    }
  }

  /**
    The message when the default alias was stored, for any folder name: with
    "example_folder" it is test_script's "Original example_folder active!".
  */
  lemma DefaultAchievement(folder: string)
    ensures Achievement(Defaults.DEFAULT, folder) == "Original " + folder + " active!"
  {
    OriginalCapitalized();
    assert "Original" + " " == "Original ";
  }

  lemma OriginalCapitalized()
    ensures Capitalize("original") == "Original"
  {
    CapitalizeWord("original");
  }

  /** The message when the alternative alias was stored: "Alt example_folder active!" in test_script. */
  lemma AltAchievement(folder: string)
    ensures Achievement(Defaults.ALT, folder) == "Alt " + folder + " active!"
  {
    CapitalizeWord("alt");
    assert Capitalize("alt") == "Alt";
    assert "Alt" + " " == "Alt ";
  }
}
