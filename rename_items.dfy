/**
  The bulk renamer of helpful_cakes/rename_items.py (script/rename_items.py
  is the same code): every file of a folder whose name starts with one of
  the camera prefixes is renamed to its name without the prefixes, or, when
  that name is taken, to a variant of the original name in which the
  character in front of the final lower-case run is replaced by "_.".
*/
module RenameItems {
  import opened Wrappers
  import opened Text

  /** The values of the FileStart enum, in declaration order (`grab_starting_strings`). */
  const FileStart: seq<string> := ["IMG-", "VID-"]

  /** Constant().NEW_FILE, the character put before the final lower-case run. */
  const NewFile: string := "_"

  /** Whether the pattern "IMG-|VID-" matches at the front of `s`. */
  predicate MarkAt(s: string) {
    StartsWith(s, "IMG-") || StartsWith(s, "VID-")
  }

  lemma MarkAtIsStartsWithAny(s: string)
    ensures MarkAt(s) <==> StartsWithAny(s, FileStart)
  {
    assert FileStart[0] == "IMG-" && FileStart[1] == "VID-";
  }

  /** How many places of `s` the pattern matches at, overlapping or not. */
  function Occurrences(s: string): nat {
    if |s| < 4 then 0 else (if MarkAt(s) then 1 else 0) + Occurrences(s[1..])
  }

  /** The pattern spelled out character by character. */
  lemma MarkAtSpelled(s: string)
    ensures MarkAt(s) <==>
      (|s| >= 4 && s[3] == '-' && ((s[0] == 'I' && s[1] == 'M' && s[2] == 'G') || (s[0] == 'V' && s[1] == 'I' && s[2] == 'D')))
  {
    if |s| >= 4 {
      assert s[..4][0] == s[0] && s[..4][1] == s[1] && s[..4][2] == s[2] && s[..4][3] == s[3];
    }
  }

  /** Neither prefix overlaps itself or the other: a match hides no match at the next three places. */
  lemma MarksDoNotOverlap(s: string)
    requires MarkAt(s)
    ensures Occurrences(s) == 1 + Occurrences(s[4..])
  {
    MarkAtSpelled(s);
    MarkAtSpelled(s[1..]);
    MarkAtSpelled(s[2..]);
    MarkAtSpelled(s[3..]);
    assert s[1..][1..] == s[2..] && s[2..][1..] == s[3..] && s[3..][1..] == s[4..];
    assert Occurrences(s) == 1 + Occurrences(s[1..]);
    assert Occurrences(s[1..]) == Occurrences(s[2..]);
    assert Occurrences(s[2..]) == Occurrences(s[3..]);
    assert Occurrences(s[3..]) == Occurrences(s[4..]);
  }

  /**
    `strip_string(file)`: `re.sub("IMG-|VID-", "", file)`, one left-to-right
    pass that deletes every match of the input; a match that only appears
    once another was deleted stays.
  */
  function StripString(s: string): (r: string)
    ensures |r| == |s| - 4 * Occurrences(s)
    ensures Occurrences(s) == 0 ==> r == s
  {
    if |s| < 4 then s
    else if MarkAt(s) then
      MarksDoNotOverlap(s);
      StripString(s[4..])
    else
      assert s == [s[0]] + s[1..];
      [s[0]] + StripString(s[1..])
  }

  /** Position `i` of `s` lies inside a match of "IMG-|VID-": in a window [m, m + 4) where the pattern matches. */
  predicate Covered(s: string, i: nat) {
    exists m :: 0 <= m <= i && i < m + 4 && m <= |s| && MarkAt(s[m..])
  }

  /** The characters of `s` from position `i` on that no match covers, in their order. */
  function Uncovered(s: string, i: nat): string
    requires i <= |s|
    decreases |s| - i
  {
    if i == |s| then [] else (if Covered(s, i) then [] else [s[i]]) + Uncovered(s, i + 1)
  }

  lemma {:induction false} UncoveredNone(s: string, i: nat)
    requires i <= |s|
    requires forall j :: i <= j < |s| ==> !Covered(s, j)
    ensures Uncovered(s, i) == s[i..]
    decreases |s| - i
  {
    if i < |s| {
      UncoveredNone(s, i + 1);
      assert s[i..] == [s[i]] + s[i + 1..];
    }
  }

  lemma {:induction false} UncoveredSkip(s: string, i: nat, k: nat)
    requires i <= k <= |s|
    requires forall j :: i <= j < k ==> Covered(s, j)
    ensures Uncovered(s, i) == Uncovered(s, k)
    decreases k - i
  {
    if i < k {
      UncoveredSkip(s, i + 1, k);
    }
  }

  /** Positions from `i` on that are covered alike in `s` and in its suffix `t` keep the same characters. */
  lemma {:induction false} UncoveredShift(s: string, d: nat, i: nat)
    requires d <= i <= |s|
    requires forall j :: i <= j < |s| ==> (Covered(s, j) <==> Covered(s[d..], j - d))
    ensures Uncovered(s, i) == Uncovered(s[d..], i - d)
    decreases |s| - i
  {
    if i < |s| {
      var t := s[d..];
      assert s[i] == t[i - d];
      assert Covered(s, i) <==> Covered(t, i - d);
      UncoveredShift(s, d, i + 1);
      assert Uncovered(t, i - d) == (if Covered(t, i - d) then [] else [t[i - d]]) + Uncovered(t, i + 1 - d);
    }
  }

  /** No match at the front: position 0 is kept and the rest is covered as in `s[1..]`. */
  lemma CoverWithoutMark(s: string)
    requires |s| >= 1 && !MarkAt(s)
    ensures !Covered(s, 0)
    ensures forall j :: 1 <= j < |s| ==> (Covered(s, j) <==> Covered(s[1..], j - 1))
  {
    assert s[0..] == s;
    forall j | 1 <= j < |s| ensures Covered(s, j) <==> Covered(s[1..], j - 1) {
      if Covered(s, j) {
        var m :| 0 <= m <= j && j < m + 4 && m <= |s| && MarkAt(s[m..]);
        assert m != 0;
        assert s[m..] == s[1..][m - 1..];
        assert 0 <= m - 1 <= j - 1 && j - 1 < m - 1 + 4 && m - 1 <= |s[1..]| && MarkAt(s[1..][m - 1..]);
      }
      if Covered(s[1..], j - 1) {
        var m :| 0 <= m <= j - 1 && j - 1 < m + 4 && m <= |s[1..]| && MarkAt(s[1..][m..]);
        assert s[1..][m..] == s[m + 1..];
        assert 0 <= m + 1 <= j && j < m + 1 + 4 && m + 1 <= |s| && MarkAt(s[m + 1..]);
      }
    }
  }

  /** A match at the front covers positions 0 to 3; beyond them coverage is that of `s[4..]`. */
  lemma CoverWithMark(s: string)
    requires MarkAt(s)
    ensures forall j :: 0 <= j < 4 ==> Covered(s, j)
    ensures forall j :: 4 <= j < |s| ==> (Covered(s, j) <==> Covered(s[4..], j - 4))
  {
    MarkAtSpelled(s);
    MarkAtSpelled(s[1..]);
    MarkAtSpelled(s[2..]);
    MarkAtSpelled(s[3..]);
    assert s[0..] == s;
    forall j | 0 <= j < 4 ensures Covered(s, j) {
      assert 0 <= 0 <= j && j < 0 + 4 && 0 <= |s| && MarkAt(s[0..]);
    }
    forall j | 4 <= j < |s| ensures Covered(s, j) <==> Covered(s[4..], j - 4) {
      if Covered(s, j) {
        var m :| 0 <= m <= j && j < m + 4 && m <= |s| && MarkAt(s[m..]);
        assert m != 1 && m != 2 && m != 3;
        assert s[m..] == s[4..][m - 4..];
        assert 0 <= m - 4 <= j - 4 && j - 4 < m - 4 + 4 && m - 4 <= |s[4..]| && MarkAt(s[4..][m - 4..]);
      }
      if Covered(s[4..], j - 4) {
        var m :| 0 <= m <= j - 4 && j - 4 < m + 4 && m <= |s[4..]| && MarkAt(s[4..][m..]);
        assert s[4..][m..] == s[m + 4..];
        assert 0 <= m + 4 <= j && j < m + 4 + 4 && m + 4 <= |s| && MarkAt(s[m + 4..]);
      }
    }
  }

  /**
    What the one pass leaves: exactly the characters of the input that no
    match of the input covers, in their order. Every match of the input is
    deleted and nothing else is.
  */
  lemma {:induction false} StripStringDeletesMatches(s: string)
    ensures StripString(s) == Uncovered(s, 0)
    decreases |s|
  {
    if |s| < 4 {
      forall m | 0 <= m <= |s| ensures !MarkAt(s[m..]) {
        assert |s[m..]| < 4;
      }
      UncoveredNone(s, 0);
      assert s[0..] == s;
    } else if MarkAt(s) {
      CoverWithMark(s);
      UncoveredSkip(s, 0, 4);
      UncoveredShift(s, 4, 4);
      StripStringDeletesMatches(s[4..]);
      assert StripString(s) == StripString(s[4..]);
    } else {
      CoverWithoutMark(s);
      UncoveredShift(s, 1, 1);
      StripStringDeletesMatches(s[1..]);
      assert Uncovered(s, 0) == [s[0]] + Uncovered(s, 1);
      assert StripString(s) == [s[0]] + StripString(s[1..]);
    }
  }

  /** Each prefix on its own is deleted entirely. */
  lemma StripPrefixAlone()
    ensures StripString(FileStart[0]) == "" && StripString(FileStart[1]) == ""
  {
    MarkAtSpelled(FileStart[0]);
    MarkAtSpelled(FileStart[1]);
  }

  /** A name that starts with a prefix loses at least that prefix. */
  lemma StripShortensPrefixed(s: string)
    requires StartsWithAny(s, FileStart)
    ensures |StripString(s)| <= |s| - 4
  {
    MarkAtIsStartsWithAny(s);
  }

  /** The examples of test_clean_name. */
  lemma StripExamples()
    ensures StripString("VID-44") == "44"
    ensures StripString("IMG-44") == "44"
    ensures StripString("VD-44") == "VD-44"
    ensures StripString("44") == "44"
  {
    MarkAtSpelled("VID-44");
    MarkAtSpelled("IMG-44");
    assert StripString("VID-44") == StripString("44");
    assert StripString("IMG-44") == StripString("44");
    MarkAtSpelled("VD-44");
    MarkAtSpelled("D-44");
    assert "VD-44"[1..] == "D-44";
    assert Occurrences("VD-44") == 0;
  }

  /** The pass is not repeated: a prefix assembled by a deletion survives. */
  lemma StripIsOnePass()
    ensures StripString("IMIMG-G-") == "IMG-"
    ensures StripString(StripString("IMIMG-G-")) == ""
  {
    var s := "IMIMG-G-";
    var t := s[1..];
    var u := s[2..];
    MarkAtSpelled(s);
    MarkAtSpelled(t);
    MarkAtSpelled(u);
    assert t[1..] == u && u[4..] == "G-";
    assert StripString(u) == "G-";
    assert StripString(t) == [t[0]] + StripString(u);
    assert StripString(s) == [s[0]] + StripString(t);
    assert [s[0]] + ([t[0]] + "G-") == "IMG-";
    MarkAtSpelled("IMG-");
    assert "IMG-"[4..] == "";
  }

  /** Where Python's `$` lets a match end: at the end, or before a final newline. */
  function EndPos(s: string): (e: nat)
    ensures e <= |s|
  {
    if |s| > 0 && s[|s| - 1] == '\n' then |s| - 1 else |s|
  }

  /** Whether "(.)([a-z]+)$" matches starting at `p`. */
  predicate MatchesAt(s: string, p: nat) {
    p + 2 <= EndPos(s) && s[p] != '\n' && forall j :: p < j < EndPos(s) ==> IsLower(s[j])
  }

  /** The start of the longest run of lower-case letters that ends at `e`. */
  function RunStart(s: string, e: nat): (k: nat)
    requires e <= |s|
    ensures k <= e
    ensures forall j :: k <= j < e ==> IsLower(s[j])
    ensures k > 0 ==> !IsLower(s[k - 1])
  {
    if e > 0 && IsLower(s[e - 1]) then RunStart(s, e - 1) else e
  }

  /** A run of lower-case letters from `j` up to `e` makes the maximal run start at `j` or before. */
  lemma {:induction false} RunStartBelow(s: string, e: nat, j: nat)
    requires j < e <= |s|
    requires forall i :: j <= i < e ==> IsLower(s[i])
    ensures RunStart(s, e) <= j
    decreases e
  {
    if j < e - 1 {
      RunStartBelow(s, e - 1, j);
    }
  }

  /** A match at `q` leaves at most the matched character in front of the maximal run. */
  lemma MatchBounds(s: string)
    ensures forall q :: 0 <= q < |s| && MatchesAt(s, q) ==> RunStart(s, EndPos(s)) <= q + 1
  {
    forall q | 0 <= q < |s| && MatchesAt(s, q) ensures RunStart(s, EndPos(s)) <= q + 1 {
      RunStartBelow(s, EndPos(s), q + 1);
    }
  }

  /** Where `re.sub` finds its leftmost match of "(.)([a-z]+)$", if anywhere. */
  function MatchStart(s: string): (r: Option<nat>)
    ensures r.Some? ==> r.value < |s| && MatchesAt(s, r.value)
    ensures r.Some? ==> forall q :: 0 <= q < r.value ==> !MatchesAt(s, q)
    ensures r.None? ==> forall q :: 0 <= q < |s| ==> !MatchesAt(s, q)
  {
    var e := EndPos(s);
    var k := RunStart(s, e);
    MatchBounds(s);
    if k == e then None
    else if k > 0 && s[k - 1] != '\n' then Some(k - 1)
    else if k + 1 < e then Some(k)
    else None
  }

  /**
    `substitute_end_dot(name)`: `re.sub("(.)([a-z]+)$", "_.\\2", name)`. The
    character the match starts with becomes "_." and the lower-case run after
    it is kept; without a match the name is unchanged.
  */
  function SubstituteEndDot(s: string): (r: string)
    ensures MatchStart(s).None? ==> r == s
    ensures MatchStart(s).Some? ==> |r| == |s| + 1 && r[..MatchStart(s).value] == s[..MatchStart(s).value]
    ensures MatchStart(s).Some? ==> r[MatchStart(s).value..MatchStart(s).value + 2] == NewFile + "."
    ensures MatchStart(s).Some? ==> r[MatchStart(s).value + 2..] == s[MatchStart(s).value + 1..]
  {
    match MatchStart(s)
    case None => s
    case Some(p) => s[..p] + NewFile + "." + s[p + 1..]
  }

  /**
    On a name without newlines: the name changes exactly when it ends in a
    lower-case run with a character before it; the match starts at the
    character in front of the run, or at the first letter of an all
    lower-case name.
  */
  lemma {:induction false} SubstituteEndDotPlain(s: string)
    requires forall i :: 0 <= i < |s| ==> s[i] != '\n'
    ensures SubstituteEndDot(s) != s <==> |s| >= 2 && IsLower(s[|s| - 1])
    ensures |s| >= 2 && IsLower(s[|s| - 1]) ==>
      MatchStart(s) == Some(if RunStart(s, |s|) > 0 then RunStart(s, |s|) - 1 else 0)
  {
    var k := RunStart(s, |s|);
    assert EndPos(s) == |s|;
    if |s| >= 2 && IsLower(s[|s| - 1]) {
      assert k < |s|;
      assert |SubstituteEndDot(s)| == |s| + 1;
    } else if |s| >= 1 && !IsLower(s[|s| - 1]) {
      assert k == |s|;
    } else {
      assert |s| <= 1 && k + 1 >= |s|;
    }
  }

  /** The examples the docstring promises: "photo.jpg" becomes "photo_.jpg", "44" stays. */
  lemma SubstituteEndDotExamples()
    ensures SubstituteEndDot("photo.jpg") == "photo_.jpg"
    ensures SubstituteEndDot("44") == "44"
  {
    var s := "photo.jpg";
    assert RunStart(s, 9) == RunStart(s, 6) == 6;
    assert MatchStart(s) == Some(5);
    assert RunStart("44", 2) == 2;
  }

  /** `f"{directory}/{name}"`. */
  function FilePath(directory: string, name: string): string {
    directory + "/" + name
  }

  lemma FilePathDistinct(directory: string, a: string, b: string)
    requires a != b
    ensures FilePath(directory, a) != FilePath(directory, b)
  {
    var n := |directory| + 1;
    assert FilePath(directory, a)[n..] == a;
    assert FilePath(directory, b)[n..] == b;
  }

  /**
    A name that, put after "directory/", makes `Path` name the folder itself
    or its parent, both of which exist.
  */
  predicate NamesFolder(name: string) {
    name == "" || name == "." || name == ".."
  }

  /** `Path(FilePath(directory, name)).exists()`, with the folder's paths in `taken`. */
  predicate PathExists(directory: string, name: string, taken: set<string>) {
    FilePath(directory, name) in taken || NamesFolder(name)
  }

  /**
    `conform_filepath(file)` against the set of paths that exist: the stripped
    name when that path is free, otherwise the end-dot variant of the
    original, unstripped name.
  */
  function ConformFilepath(directory: string, file: string, taken: set<string>): (r: string)
    ensures !PathExists(directory, StripString(file), taken) ==>
      r == FilePath(directory, StripString(file)) && r !in taken
    ensures PathExists(directory, StripString(file), taken) ==> r == FilePath(directory, SubstituteEndDot(file))
  {
    var newPath := FilePath(directory, StripString(file));
    if PathExists(directory, StripString(file), taken) then FilePath(directory, SubstituteEndDot(file)) else newPath
  }

  /** A prefixed file whose stripped name is free really moves. */
  lemma ConformFilepathMoves(directory: string, file: string, taken: set<string>)
    requires StartsWithAny(file, FileStart)
    requires !PathExists(directory, StripString(file), taken)
    ensures ConformFilepath(directory, file, taken) != FilePath(directory, file)
  {
    StripShortensPrefixed(file);
  }

  /** "IMG-" alone strips to the folder's own path, so it keeps its name: "IMG-" has no lower-case end. */
  lemma ConformFilepathBarePrefix(directory: string, taken: set<string>)
    ensures ConformFilepath(directory, "IMG-", taken) == FilePath(directory, "IMG-")
  {
    MarkAtSpelled("IMG-");
    assert StripString("IMG-") == StripString("");
    assert RunStart("IMG-", 4) == 4;
  }

  /** One entry of `Path.iterdir()`: its name and whether it is a file. */
  datatype Entry = Entry(name: string, isFile: bool)

  predicate Wanted(e: Entry, start: seq<string>) {
    e.isFile && StartsWithAny(e.name, start)
  }

  /** `grab_files`: the files whose name starts with a prefix, in listing order. */
  function GrabFiles(listing: seq<Entry>, start: seq<string>): (r: seq<Entry>)
    ensures |r| <= |listing|
    ensures forall e :: e in r <==> e in listing && Wanted(e, start)
  {
    if listing == [] then []
    else if Wanted(listing[0], start) then [listing[0]] + GrabFiles(listing[1..], start)
    else GrabFiles(listing[1..], start)
  }

  /** Filtering a listing piecewise gives the pieces' results in order. */
  lemma {:induction false} GrabFilesConcat(a: seq<Entry>, b: seq<Entry>, start: seq<string>)
    ensures GrabFiles(a + b, start) == GrabFiles(a, start) + GrabFiles(b, start)
  {
    if a == [] {
      assert a + b == b;
    } else {
      assert (a + b)[0] == a[0] && (a + b)[1..] == a[1..] + b;
      GrabFilesConcat(a[1..], b, start);
    }
  }

  /** `count_items`: `len(list(filter(is_file, …)))`, the number of positions that hold a file. */
  function CountItems(listing: seq<Entry>): (n: nat)
    ensures n == |set i | 0 <= i < |listing| && listing[i].isFile|
    ensures n > 0 <==> exists e :: e in listing && e.isFile
    decreases |listing|
  {
    if listing == [] then 0
    else
      var last := |listing| - 1;
      var init := listing[..last];
      assert listing == init + [listing[last]];
      assert (set i | 0 <= i < |listing| && listing[i].isFile)
          == (set i | 0 <= i < |init| && init[i].isFile) + (if listing[last].isFile then {last} else {});
      CountItems(init) + (if listing[last].isFile then 1 else 0)
  }

  /** A listing of two files counts two, and one that holds a folder besides counts the files alone. */
  lemma CountItemsExample()
    ensures CountItems([Entry("a", true), Entry("b", true)]) == 2
    ensures CountItems([Entry("a", true), Entry("sub", false)]) == 1
  {
    var l := [Entry("a", true), Entry("b", true)];
    assert l[..1] == [Entry("a", true)] && l[..1][..0] == [];
    var m := [Entry("a", true), Entry("sub", false)];
    assert m[..1] == [Entry("a", true)];
  }

  /**
    `__check_folder_integrity`: the path is not blank, exists and is a
    directory, and holds at least one file.
  */
  function FolderIntegrity(filepath: string, exists_: bool, isDir: bool, listing: seq<Entry>): (ok: bool)
    ensures ok <==> filepath != "" && exists_ && isDir && exists e :: e in listing && e.isFile
  {
    filepath != "" && exists_ && isDir && CountItems(listing) > 0
  }

  /** `count_files(items, directory)`. */
  function CountFiles(items: nat, directory: string): string {
    NatToString(items) + " files inside " + directory
  }

  /** `log_info(item, total)`. */
  function LogInfo(item: nat, total: nat): string {
    "Renaming item: " + NatToString(item) + "/" + NatToString(total)
  }

  /**
    The announcement gives the count back: its digits, up to the first
    non-digit, then " files inside " and the folder.
  */
  lemma CountFilesReadsBack(items: nat, directory: string)
    ensures var m := CountFiles(items, directory); var n := |NatToString(items)|;
      |m| == n + 14 + |directory| && m[n..n + 14] == " files inside " && m[n + 14..] == directory
      && (forall i :: 0 <= i < n ==> IsDigit(m[i])) && !IsDigit(m[n]) && DigitsValue(m[..n]) == items
  {
    var d := NatToString(items);
    var m := CountFiles(items, directory);
    assert m[..|d|] == d;
    assert m[|d|..|d| + 14] == " files inside ";
    assert m[|d| + 14..] == directory;
    DigitsValueOfNatToString(items);
  }

  /**
    The progress line gives both numbers back: after "Renaming item: ", the
    step's digits, a "/" and the total's digits.
  */
  lemma {:induction false} LogInfoReadsBack(item: nat, total: nat)
    ensures var m := LogInfo(item, total); var a := |NatToString(item)|;
      |m| == 16 + a + |NatToString(total)| && m[..15] == "Renaming item: " && m[15 + a] == '/'
      && (forall i :: 15 <= i < 15 + a ==> IsDigit(m[i])) && DigitsValue(m[15..15 + a]) == item
      && (forall i :: 16 + a <= i < |m| ==> IsDigit(m[i])) && DigitsValue(m[16 + a..]) == total
  {
    var d := NatToString(item);
    var e := NatToString(total);
    var m := LogInfo(item, total);
    assert m[..15] == "Renaming item: ";
    assert m[15..15 + |d|] == d;
    assert m[16 + |d|..] == e;
    DigitsValueOfNatToString(item);
    DigitsValueOfNatToString(total);
  }

  /** `renamed_elements()` for a counter value. */
  function RenamedElements(counter: nat): string {
    NatToString(counter) + " elements renamed."
  }

  /** The final message gives the counter back: its digits, then " elements renamed.". */
  lemma RenamedElementsReadsBack(counter: nat)
    ensures |RenamedElements(counter)| > 18
    ensures RenamedElements(counter)[|RenamedElements(counter)| - 18..] == " elements renamed."
    ensures var d := RenamedElements(counter)[..|RenamedElements(counter)| - 18];
            (forall i :: 0 <= i < |d| ==> IsDigit(d[i])) && DigitsValue(d) == counter
  {
    var m := RenamedElements(counter);
    assert m[..|m| - 18] == NatToString(counter);
    DigitsValueOfNatToString(counter);
  }

  /** The messages of steps `from + 1` to `from + count` out of `total`. */
  function Progress(from: nat, count: nat, total: nat): (r: seq<string>)
    ensures |r| == count
    ensures forall k :: 0 <= k < count ==> r[k] == LogInfo(from + k + 1, total)
  {
    if count == 0 then [] else Progress(from, count - 1, total) + [LogInfo(from + count, total)]
  }

  /** Announcing step `n`, the one after the `count` steps from `from`, extends what was printed so far. */
  lemma ProgressAppend(printed: seq<string>, from: nat, count: nat, total: nat, n: nat)
    requires n == from + count + 1
    ensures printed + Progress(from, count, total) + [LogInfo(n, total)] == printed + Progress(from, count + 1, total)
  {
    assert Progress(from, count + 1, total) == Progress(from, count, total) + [LogInfo(n, total)];
  }

  /** `os.rename` on a file: `dst` replaces whatever had that name. */
  function MoveFile(dir: set<string>, src: string, dst: string): (r: set<string>)
    requires src in dir
    ensures dst in r && |r| <= |dir|
    ensures src != dst ==> src !in r
    ensures src == dst ==> r == dir
    ensures forall p :: p != src && p != dst ==> (p in r <==> p in dir)
  {
    var r := dir - {src} + {dst};
    assert |dir - {src}| == |dir| - 1;
    r
  }

  /** The files can be renamed one after another: each exists in `dir` and none is listed twice. */
  predicate Renamable(directory: string, dir: set<string>, files: seq<string>) {
    (forall j :: 0 <= j < |files| ==> FilePath(directory, files[j]) in dir)
    && (forall j, k :: 0 <= j < k < |files| ==> files[j] != files[k])
  }

  /** The paths after renaming the first file of the list, as `_rename_file` does. */
  function RenameFirst(directory: string, dir: set<string>, files: seq<string>): (next: set<string>)
    requires Renamable(directory, dir, files) && files != []
    ensures Renamable(directory, next, files[1..])
  {
    var next := MoveFile(dir, FilePath(directory, files[0]), ConformFilepath(directory, files[0], dir));
    forall j | 0 <= j < |files[1..]| ensures FilePath(directory, files[1..][j]) in next {
      assert files[1..][j] == files[j + 1];
      FilePathDistinct(directory, files[j + 1], files[0]);
    }
    next
  }

  /** The paths that exist after renaming `files` of `directory` one by one, in order. */
  function RenameAll(directory: string, dir: set<string>, files: seq<string>): set<string>
    requires Renamable(directory, dir, files)
    decreases |files|
  {
    if files == [] then dir
    else RenameAll(directory, RenameFirst(directory, dir, files), files[1..])
  }

  /** Renaming never creates paths: the folder ends with at most as many entries as it began with. */
  lemma {:induction false} RenameAllNeverGrows(directory: string, dir: set<string>, files: seq<string>)
    requires Renamable(directory, dir, files)
    ensures |RenameAll(directory, dir, files)| <= |dir|
    decreases |files|
  {
    if files != [] {
      RenameAllNeverGrows(directory, RenameFirst(directory, dir, files), files[1..]);
    }
  }

  /** One step of RenameAll on the list from position `i` on. */
  lemma RenameAllStep(directory: string, dir: set<string>, files: seq<string>, i: nat)
    requires i < |files| && Renamable(directory, dir, files[i..])
    ensures FilePath(directory, files[i]) in dir
    ensures var next := MoveFile(dir, FilePath(directory, files[i]), ConformFilepath(directory, files[i], dir));
      Renamable(directory, next, files[i + 1..])
      && RenameAll(directory, dir, files[i..]) == RenameAll(directory, next, files[i + 1..])
  {
    var f := files[i..];
    assert f[0] == files[i] && f[1..] == files[i + 1..];
    var next := RenameFirst(directory, dir, f);
    assert next == MoveFile(dir, FilePath(directory, files[i]), ConformFilepath(directory, files[i], dir));
    assert RenameAll(directory, dir, f) == RenameAll(directory, next, f[1..]);
  }

  /** The renamer: its folder, the global counter, the folder's paths and what it has printed. */
  class RenameItems {
    const filepath: string
    var counter: nat
    var dir: set<string>
    var output: seq<string>

    /**
      `__init__` once the integrity check has passed (the program exits
      otherwise): it announces how many files the folder has.
    */
    constructor (filepath: string, exists_: bool, isDir: bool, listing: seq<Entry>, dir: set<string>)
      requires FolderIntegrity(filepath, exists_, isDir, listing)
      requires forall e :: e in listing && e.isFile ==> FilePath(filepath, e.name) in dir
      ensures this.filepath == filepath && this.dir == dir && counter == 0
      ensures output == [CountFiles(CountItems(listing), filepath)]
    {
      this.filepath := filepath;
      this.dir := dir;
      counter := 0;
      output := [CountFiles(CountItems(listing), filepath)];
    }

    /** `_rename_file(file)`. */
    method RenameFile(file: string)
      requires FilePath(filepath, file) in dir
      modifies this
      ensures dir == MoveFile(old(dir), FilePath(filepath, file), ConformFilepath(filepath, file, old(dir)))
      ensures counter == old(counter) && output == old(output)
    {
      var oldFile := FilePath(filepath, file);
      var newFile := ConformFilepath(filepath, file, dir);
      dir := dir - {oldFile} + {newFile};
    }

    /** `add_one_item(total)`: count one more file and announce it. */
    method AddOneItem(total: nat)
      modifies this
      ensures counter == old(counter) + 1
      ensures output == old(output) + [LogInfo(counter, total)]
      ensures dir == old(dir)
    {
      counter := counter + 1;
      output := output + [LogInfo(counter, total)];
    }

    /**
      `iterate_filtered_files(files)`: rename the files in order, counting and
      announcing each step k as "Renaming item: k/total", and report how many
      were renamed.
    */
    method IterateFilteredFiles(files: seq<string>) returns (r: string)
      requires Renamable(filepath, dir, files)
      modifies this
      ensures counter == old(counter) + |files|
      ensures output == old(output) + Progress(old(counter), |files|, |files|)
      ensures dir == RenameAll(filepath, old(dir), files)
      ensures r == RenamedElements(counter)
    {
      var total := |files|;
      ghost var printed, counted, paths := output, counter, dir;
      for i := 0 to total
        invariant counter == counted + i
        invariant output == printed + Progress(counted, i, total)
        invariant Renamable(filepath, dir, files[i..])
        invariant RenameAll(filepath, dir, files[i..]) == RenameAll(filepath, paths, files)
      {
        ghost var next := MoveFile(dir, FilePath(filepath, files[i]), ConformFilepath(filepath, files[i], dir));
        assert FilePath(filepath, files[i]) in dir
          && Renamable(filepath, next, files[i + 1..])
          && RenameAll(filepath, next, files[i + 1..]) == RenameAll(filepath, paths, files)
          by { RenameAllStep(filepath, dir, files, i); }
        RenameFile(files[i]);
        AddOneItem(total);
        ProgressAppend(printed, counted, i, total, counter);
      }
      assert files[total..] == [];
      r := RenamedElements(counter);
    }
  }
}
