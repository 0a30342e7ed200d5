/**
  The kubeconfig patcher of helpful_cakes/switcher.py (script/switcher.py is
  the same code). Its checks first make sure the destination file exists and
  has as many lines as the origin, overwriting it with the origin's text
  when it does not. It then reads the origin's lines and, at every index
  where the origin has a certificate line, writes that certificate's
  Windows path under the WSL share into the destination. The copying of
  `get_new_data` runs during the checks, before any origin line is read, so
  it changes nothing; but the rewrite around it joins the destination's
  lines again, which drops a final empty line.
*/
module Switcher {
  import opened Wrappers
  import opened Text
  import opened Environment

  /** The settings (the NamedTuple Constants). */
  datatype Constants = Constants(ORIGIN: string, DESTINY: string, WSL_PATH: string, HOME: string)

  /** `Constants()`: WSL_PATH is the raw string \\wsl$\Ubuntu. */
  const Defaults: Constants := Constants(".kube/config", ".kube/config_abs", "\\\\wsl$\\Ubuntu", "HOME")

  const CertificateAuthority: string := "certificate-authority"
  const ClientCertificate: string := "client-certificate"
  const ClientKey: string := "client-key"

  /** The `avoid` tuple of `get_new_data`, and the keys `set_wsl_path` rewrites, in order. */
  const CertificateKeys: seq<string> := [CertificateAuthority, ClientCertificate, ClientKey]

  /** `strip_line(line, start)`: the line, stripped of surrounding whitespace, starts with `start`. */
  predicate StripLine(line: string, start: string) {
    StartsWith(Strip(line), start)
  }

  /** Indentation in front of a line does not change the test. */
  lemma StripLineIgnoresIndent(ws: string, line: string, start: string)
    requires AllSpace(ws)
    ensures StripLine(ws + line, start) <==> StripLine(line, start)
  {
    StripLeadingSpace(ws, line);
  }

  lemma FooStripped()
    ensures Strip("foo") == "foo"
  {
    assert LeadingSpace("foo") == 0;
    assert "foo"[0..] == "foo";
    assert TrailingSpace("foo") == 0;
  }

  /** The cases of test_strip_line. */
  lemma StripLineExamples()
    ensures StripLine("  foo", "foo")
    ensures !StripLine("  foo", "grab")
  {
    assert AllSpace("  ");
    assert "  " + "foo" == "  foo";
    StripLeadingSpace("  ", "foo");
    FooStripped();
    assert "foo"[..3] == "foo";
    assert "" + "grab"[..3] != "foo";
  }

  /** `line.strip().startswith(avoid)`: the line is one of the certificate entries. */
  predicate IsCertificateLine(line: string)
    ensures IsCertificateLine(line) <==>
      StripLine(line, CertificateAuthority) || StripLine(line, ClientCertificate) || StripLine(line, ClientKey)
  {
    assert CertificateKeys[0] == CertificateAuthority && CertificateKeys[1] == ClientCertificate;
    assert CertificateKeys[2] == ClientKey;
    StartsWithAny(Strip(line), CertificateKeys)
  }

  /** The certificate key the line starts with, if any, tested in the order of CertificateKeys. */
  function CertKeyOf(line: string): (r: Option<string>)
    ensures r.Some? ==> r.value in CertificateKeys && StripLine(line, r.value)
    ensures r.None? <==> !IsCertificateLine(line)
  {
    if StripLine(line, CertificateAuthority) then Some(CertificateAuthority)
    else if StripLine(line, ClientCertificate) then Some(ClientCertificate)
    else if StripLine(line, ClientKey) then Some(ClientKey)
    else
      assert CertificateKeys[0] == CertificateAuthority && CertificateKeys[1] == ClientCertificate;
      assert CertificateKeys[2] == ClientKey;
      None
  }

  /**
    No certificate key is a prefix of another ("certificate-authority" and
    "client-…" differ at the second letter, the two client keys at the
    eighth), so a line starts with at most one of them.
  */
  lemma KeysPrefixFree(line: string, j: nat, k: nat)
    requires j < |CertificateKeys| && k < |CertificateKeys|
    requires StripLine(line, CertificateKeys[j]) && StripLine(line, CertificateKeys[k])
    ensures j == k
  {
    var s := Strip(line);
    if j != k {
      if j == 0 || k == 0 {
        PrefixesAgree(s, CertificateKeys[j], CertificateKeys[k], 1);
      } else {
        PrefixesAgree(s, CertificateKeys[j], CertificateKeys[k], 7);
      }
    }
  }

  /** A line starts with key `k` exactly when CertKeyOf names `k`. */
  lemma CertKeyOfExact(line: string, k: nat)
    requires k < |CertificateKeys|
    ensures StripLine(line, CertificateKeys[k]) <==> CertKeyOf(line) == Some(CertificateKeys[k])
  {
    var r := CertKeyOf(line);
    if r.Some? {
      var m :| 0 <= m < |CertificateKeys| && CertificateKeys[m] == r.value;
      if StripLine(line, CertificateKeys[k]) {
        KeysPrefixFree(line, k, m);
      }
    }
  }

  /** `get_current_windows_path` after `Path.resolve`: every "/" becomes "\". */
  function WindowsPath(resolved: string): (r: string)
    ensures |r| == |resolved|
    ensures forall i :: 0 <= i < |r| ==> r[i] == (if resolved[i] == '/' then '\\' else resolved[i])
    ensures forall i :: 0 <= i < |r| ==> r[i] != '/'
  {
    if resolved == [] then []
    else [if resolved[0] == '/' then '\\' else resolved[0]] + WindowsPath(resolved[1..])
  }

  const AuthoritySuffix: string := "\\.minikube\\ca.crt"
  const CertificateSuffix: string := "\\.minikube\\profiles\\minikube\\client.crt"
  const KeySuffix: string := "\\.minikube\\profiles\\minikube\\client.key"

  /** The certificate file each key is pointed at, below the minikube profile. */
  function Suffix(k: nat): string
    requires k < |CertificateKeys|
  {
    [AuthoritySuffix, CertificateSuffix, KeySuffix][k]
  }

  /**
    `get_key(current_path)`: each certificate key mapped to the WSL share, the
    current Windows path and that key's fixed file suffix.
  */
  function GetKey(wslPath: string, currentPath: string): (key: map<string, string>)
    ensures key.Keys == set k | k in CertificateKeys
    ensures forall k :: 0 <= k < |CertificateKeys| ==> key[CertificateKeys[k]] == wslPath + currentPath + Suffix(k)
  {
    var fullPath := wslPath + currentPath;
    map[CertificateAuthority := fullPath + AuthoritySuffix,
        ClientCertificate := fullPath + CertificateSuffix,
        ClientKey := fullPath + KeySuffix]
  }

  /** Every path of `get_key` lies under the share and the current path, and no two coincide. */
  lemma GetKeyValues(wslPath: string, currentPath: string, j: nat, k: nat)
    requires j < |CertificateKeys| && k < |CertificateKeys|
    ensures StartsWith(GetKey(wslPath, currentPath)[CertificateKeys[k]], wslPath + currentPath)
    ensures j != k ==> GetKey(wslPath, currentPath)[CertificateKeys[j]] != GetKey(wslPath, currentPath)[CertificateKeys[k]]
  {
    var key := GetKey(wslPath, currentPath);
    var n := |wslPath + currentPath|;
    assert key[CertificateKeys[k]][..n] == wslPath + currentPath;
    if j != k {
      assert key[CertificateKeys[j]][n..] == Suffix(j);
      assert key[CertificateKeys[k]][n..] == Suffix(k);
      assert Suffix(j) != Suffix(k) by {
        if j == 0 || k == 0 {
          assert |Suffix(0)| != |Suffix(1)| && |Suffix(0)| != |Suffix(2)|;
        } else {
          assert Suffix(1)[|Suffix(1)| - 1] != Suffix(2)[|Suffix(2)| - 1];
        }
      }
    }
  }

  /** The line `set_wsl_path` writes for key `k`: four spaces, the key, ": " and the key's path. */
  function CertLine(k: string, key: map<string, string>): (line: string)
    requires k in key
    ensures |line| == |k| + |key[k]| + 6
    ensures line[..4] == "    " && line[4..4 + |k|] == k
    ensures line[4 + |k|..6 + |k|] == ": " && line[6 + |k|..] == key[k]
  {
    var line := "    " + k + ": " + key[k];
    assert line[4..4 + |k|] == k;
    assert line[4 + |k|..6 + |k|] == ": ";
    line
  }

  /** A word followed by a non-space character is kept at the front by `strip`. */
  lemma StripKeepsWord(w: string, rest: string)
    requires w != [] && !IsSpace(w[0])
    requires rest != [] && !IsSpace(rest[0])
    ensures StartsWith(Strip(w + rest), w)
  {
    var t := w + rest;
    assert t[0] == w[0] && t[|w|] == rest[0];
    var r := Strip(t);
    SpaceAfter(t, |r|);
    assert r[..|w|] == t[..|w|] == w;
  }

  lemma SpaceAfter(t: string, j: nat)
    requires j <= |t| && AllSpace(t[j..])
    ensures forall i :: j <= i < |t| ==> IsSpace(t[i])
  {
    forall i | j <= i < |t| ensures IsSpace(t[i]) {
      assert t[j..][i - j] == t[i];
    }
  }

  /**
    A written certificate line is again a certificate line of the same key,
    so a later run's `get_new_data` leaves it alone.
  */
  lemma CertLineIsCertificate(k: string, key: map<string, string>)
    requires k in CertificateKeys && k in key
    ensures CertKeyOf(CertLine(k, key)) == Some(k)
  {
    var j :| 0 <= j < |CertificateKeys| && CertificateKeys[j] == k;
    CertLineStartsWithKey(j, key);
    CertKeyOfExact(CertLine(k, key), j);
  }

  /** The stripped certificate line starts with its key. */
  lemma {:induction false} CertLineStartsWithKey(j: nat, key: map<string, string>)
    requires j < |CertificateKeys| && CertificateKeys[j] in key
    ensures StripLine(CertLine(CertificateKeys[j], key), CertificateKeys[j])
  {
    var k := CertificateKeys[j];
    var rest := ": " + key[k];
    var indent := "    ";
    assert CertLine(k, key) == indent + (k + rest);
    assert AllSpace(indent);
    StripLeadingSpace(indent, k + rest);
    KeysStartWithLetter(j);
    StripKeepsWord(k, rest);
  }

  lemma KeysStartWithLetter(j: nat)
    requires j < |CertificateKeys|
    ensures CertificateKeys[j] != [] && CertificateKeys[j][0] == 'c'
  {
  }

  /**
    One line after `set_wsl_path`: rewritten when its origin line is a
    certificate line, and then a certificate line of the same key.
  */
  function PatchLine(originLine: string, current: string, key: map<string, string>): (r: string)
    requires forall k :: k in CertificateKeys ==> k in key
    ensures IsCertificateLine(originLine) ==> r == CertLine(CertKeyOf(originLine).value, key)
    ensures IsCertificateLine(originLine) ==> CertKeyOf(r) == CertKeyOf(originLine)
    ensures !IsCertificateLine(originLine) ==> r == current
  {
    match CertKeyOf(originLine)
    case Some(k) =>
      CertLineIsCertificate(k, key);
      CertLine(k, key)
    case None => current
  }

  /**
    The three tests of `set_wsl_path` on one line: whichever of them holds,
    the other two fail, so running them in sequence makes exactly
    PatchLine's change.
  */
  lemma SequentialTests(originLine: string, current: string, key: map<string, string>)
    requires forall k :: k in CertificateKeys ==> k in key
    ensures StripLine(originLine, CertificateAuthority) ==>
      !StripLine(originLine, ClientCertificate) && !StripLine(originLine, ClientKey)
      && PatchLine(originLine, current, key) == CertLine(CertificateAuthority, key)
    ensures StripLine(originLine, ClientCertificate) ==>
      !StripLine(originLine, ClientKey) && PatchLine(originLine, current, key) == CertLine(ClientCertificate, key)
    ensures StripLine(originLine, ClientKey) ==> PatchLine(originLine, current, key) == CertLine(ClientKey, key)
    ensures (!StripLine(originLine, CertificateAuthority) && !StripLine(originLine, ClientCertificate)
      && !StripLine(originLine, ClientKey)) ==> PatchLine(originLine, current, key) == current
    ensures (StripLine(originLine, CertificateAuthority) || StripLine(originLine, ClientCertificate)
      || StripLine(originLine, ClientKey)) ==> IsCertificateLine(originLine)
  {
    CertKeyOfExact(originLine, 0);
    CertKeyOfExact(originLine, 1);
    CertKeyOfExact(originLine, 2);
  }

  /** `"\n".join(data)`. */
  function JoinOneLine(data: seq<string>): (r: string)
    ensures data == [] ==> r == ""
    ensures |data| == 1 ==> r == data[0]
  {
    if data == [] then ""
    else if |data| == 1 then data[0]
    else data[0] + "\n" + JoinOneLine(data[1..])
  }

  predicate NoNewline(s: string) {
    forall i :: 0 <= i < |s| ==> s[i] != '\n'
  }

  /** How many times `c` occurs in `s`. */
  function CountChar(s: string, c: char): nat {
    if s == [] then 0 else (if s[0] == c then 1 else 0) + CountChar(s[1..], c)
  }

  lemma {:induction false} CountCharConcat(a: string, b: string, c: char)
    ensures CountChar(a + b, c) == CountChar(a, c) + CountChar(b, c)
  {
    if a == [] {
      assert a + b == b;
    } else {
      assert (a + b)[0] == a[0] && (a + b)[1..] == a[1..] + b;
      CountCharConcat(a[1..], b, c);
    }
  }

  lemma {:induction false} NoNewlineCount(s: string)
    requires NoNewline(s)
    ensures CountChar(s, '\n') == 0
  {
    if s != [] {
      NoNewlineCount(s[1..]);
    }
  }

  /** Joining newline-free lines puts exactly one separator between consecutive lines. */
  lemma {:induction false} JoinOneLineSeparators(data: seq<string>)
    requires data != []
    requires forall i :: 0 <= i < |data| ==> NoNewline(data[i])
    ensures CountChar(JoinOneLine(data), '\n') == |data| - 1
  {
    NoNewlineCount(data[0]);
    if |data| > 1 {
      JoinOneLineSeparators(data[1..]);
      CountCharConcat(data[0], "\n", '\n');
      CountCharConcat(data[0] + "\n", JoinOneLine(data[1..]), '\n');
    }
  }

  /** The length of the first line of `s`: the position of its first "\n", or |s|. */
  function LineEnd(s: string): (n: nat)
    ensures n <= |s| && NoNewline(s[..n])
    ensures n < |s| ==> s[n] == '\n'
  {
    if s == [] || s[0] == '\n' then 0
    else
      var m := LineEnd(s[1..]);
      assert s[..m + 1] == [s[0]] + s[1..][..m];
      1 + m
  }

  /** `s.split("\n")`: the pieces between the newlines; never empty. */
  function SplitNewlines(s: string): (r: seq<string>)
    ensures r != []
    ensures forall i :: 0 <= i < |r| ==> NoNewline(r[i])
    decreases |s|
  {
    var n := LineEnd(s);
    if n == |s| then [s] else [s[..n]] + SplitNewlines(s[n + 1..])
  }

  /** A newline-free line is found whole at the front of a text that continues with "\n". */
  lemma LineEndOfLine(a: string, rest: string)
    requires NoNewline(a)
    ensures LineEnd(a + rest) >= |a|
    ensures rest != [] && rest[0] == '\n' ==> LineEnd(a + rest) == |a|
    decreases |a|
  {
    if a != [] {
      assert (a + rest)[0] == a[0] && (a + rest)[1..] == a[1..] + rest;
      LineEndOfLine(a[1..], rest);
    } else {
      assert a + rest == rest;
    }
  }

  /** Splitting at the newlines gives back the newline-free lines that were joined. */
  lemma {:induction false} SplitJoinRoundTrip(data: seq<string>)
    requires data != []
    requires forall i :: 0 <= i < |data| ==> NoNewline(data[i])
    ensures SplitNewlines(JoinOneLine(data)) == data
    decreases |data|
  {
    if |data| == 1 {
      LineEndOfLine(data[0], "");
      assert data[0] + "" == data[0];
    } else {
      var tail := JoinOneLine(data[1..]);
      var s := data[0] + "\n" + tail;
      assert s == data[0] + ("\n" + tail);
      LineEndOfLine(data[0], "\n" + tail);
      assert s[..|data[0]|] == data[0];
      assert s[|data[0]| + 1..] == tail;
      SplitJoinRoundTrip(data[1..]);
      assert [data[0]] + data[1..] == data;
    }
  }

  /**
    `check_length(file2)` over the two files' line counts: the origin has
    lines and the second file has as many.
  */
  predicate CheckLength(originLines: nat, file2Lines: nat) {
    0 < originLines == file2Lines
  }

  /**
    `check_integrity(file2)` on line lists: when the length check fails, the
    origin's text is written over the second file, which then has the
    origin's lines. Either way the second file ends with the origin's number
    of lines.
  */
  function CheckIntegrity(origin: seq<string>, file2: seq<string>): (r: seq<string>)
    ensures |r| == |origin|
    ensures CheckLength(|origin|, |file2|) ==> r == file2
    ensures r == file2 || r == origin
  {
    if CheckLength(|origin|, |file2|) then file2 else origin
  }

  /** What `get_new_data` makes of the lines `toFile`: non-certificate origin lines copied over. */
  function NewData(origin: seq<string>, toFile: seq<string>): seq<string>
    requires |origin| <= |toFile|
  {
    seq(|toFile|, i requires 0 <= i < |toFile| =>
      if i < |origin| && !IsCertificateLine(origin[i]) then origin[i] else toFile[i])
  }

  /** With no origin lines, as when `__make_checks` runs before the origin is read, nothing changes. */
  lemma NewDataEmptyOrigin(toFile: seq<string>)
    ensures NewData([], toFile) == toFile
  {
  }

  /** What `set_wsl_path` makes of `destiny`: each certificate line rewritten with its path. */
  function WslPatched(origin: seq<string>, destiny: seq<string>, key: map<string, string>): seq<string>
    requires forall k :: k in CertificateKeys ==> k in key
  {
    seq(|destiny|, i requires 0 <= i < |destiny| =>
      if i < |origin| then PatchLine(origin[i], destiny[i], key) else destiny[i])
  }

  /**
    The destination lines after `__call__`, from the origin's lines and the
    destination's lines before the call (None when the file is missing):
    `check_existence` creates an empty file, `check_integrity` fixes the
    line count, `check_same_data` runs `get_new_data` while the origin list
    is still empty, and `populate_new_data` runs `set_wsl_path` over the
    destination with the loaded origin lines.
  */
  function CallResult(origin: seq<string>, destiny: Option<seq<string>>, key: map<string, string>): seq<string>
    requires forall k :: k in CertificateKeys ==> k in key
  {
    var existing := if destiny.Some? then destiny.value else [];
    var checked := CheckIntegrity(origin, existing);
    var compared := NewData([], checked);
    WslPatched(origin, compared, key)
  }

  /**
    What `__call__` writes: as many lines as the origin; at each certificate
    line of the origin, that certificate's new path. Every other line is the
    destination's own when it already had the origin's number of lines, and
    the origin's line otherwise; the origin's other lines are never copied
    into a destination of the right length.
  */
  lemma CallPatchesCertificates(origin: seq<string>, destiny: Option<seq<string>>, key: map<string, string>)
    requires forall k :: k in CertificateKeys ==> k in key
    ensures |CallResult(origin, destiny, key)| == |origin|
    ensures forall i :: 0 <= i < |origin| && IsCertificateLine(origin[i]) ==>
      CallResult(origin, destiny, key)[i] == CertLine(CertKeyOf(origin[i]).value, key)
    ensures destiny.Some? && CheckLength(|origin|, |destiny.value|) ==>
      forall i :: 0 <= i < |origin| && !IsCertificateLine(origin[i]) ==> CallResult(origin, destiny, key)[i] == destiny.value[i]
    ensures !(destiny.Some? && CheckLength(|origin|, |destiny.value|)) ==>
      forall i :: 0 <= i < |origin| && !IsCertificateLine(origin[i]) ==> CallResult(origin, destiny, key)[i] == origin[i]
  {
    var existing := if destiny.Some? then destiny.value else [];
    var checked := CheckIntegrity(origin, existing);
    NewDataEmptyOrigin(checked);
  }

  /**
    On line lists, a second run of CallResult over the lines the first wrote
    gives them back. The program reads those lines back from the written
    text, which CallTextIdempotent covers.
  */
  lemma CallIdempotent(origin: seq<string>, destiny: Option<seq<string>>, key: map<string, string>)
    requires forall k :: k in CertificateKeys ==> k in key
    ensures CallResult(origin, Some(CallResult(origin, destiny, key)), key) == CallResult(origin, destiny, key)
  {
    var first := CallResult(origin, destiny, key);
    CallPatchesCertificates(origin, destiny, key);
    NewDataEmptyOrigin(CheckIntegrity(origin, first));
    if origin != [] {
      assert CheckIntegrity(origin, first) == first;
    }
    var second := CallResult(origin, Some(first), key);
    assert |second| == |first|;
    forall i | 0 <= i < |first| ensures second[i] == first[i] {
      if IsCertificateLine(origin[i]) {
        assert first[i] == CertLine(CertKeyOf(origin[i]).value, key);
      }
    }
  }

  /**
    `read_text(file)`: `splitlines` of the file's text, at "\n" only. A final
    newline ends the last line instead of starting an empty one, and the
    empty text has no lines.
  */
  function SplitLines(t: string): (r: seq<string>)
    ensures forall i :: 0 <= i < |r| ==> NoNewline(r[i])
    ensures r == [] <==> t == ""
  {
    if t == "" then []
    else if t[|t| - 1] == '\n' then SplitNewlines(t[..|t| - 1])
    else SplitNewlines(t)
  }

  /** Joining one more line appends a separator and that line. */
  lemma {:induction false} JoinOneLineSnoc(a: seq<string>, x: string)
    requires a != []
    ensures JoinOneLine(a + [x]) == JoinOneLine(a) + "\n" + x
    decreases |a|
  {
    if |a| == 1 {
      assert a + [x] == [a[0], x] && [a[0], x][1..] == [x];
    } else {
      assert (a + [x])[0] == a[0] && (a + [x])[1..] == a[1..] + [x];
      JoinOneLineSnoc(a[1..], x);
    }
  }

  predicate LastLineEmpty(lines: seq<string>) {
    lines != [] && lines[|lines| - 1] == ""
  }

  /** The joined text ends with the last line. */
  lemma JoinOneLineEnd(data: seq<string>)
    requires data != []
    ensures var t := JoinOneLine(data); var last := data[|data| - 1];
      |last| <= |t| && t[|t| - |last|..] == last
  {
    var last := data[|data| - 1];
    if |data| > 1 {
      var a := data[..|data| - 1];
      assert a + [last] == data;
      JoinOneLineSnoc(a, last);
    }
  }

  /** Newline-free lines written with `join_one_line` read back unchanged, unless the last one is empty. */
  lemma SplitLinesJoin(data: seq<string>)
    requires forall i :: 0 <= i < |data| ==> NoNewline(data[i])
    requires !LastLineEmpty(data)
    ensures SplitLines(JoinOneLine(data)) == data
  {
    if data != [] {
      var t := JoinOneLine(data);
      var last := data[|data| - 1];
      JoinOneLineEnd(data);
      assert t[|t| - 1] == last[|last| - 1];
      SplitJoinRoundTrip(data);
    }
  }

  /**
    A final empty line does not survive: its join ends with "\n", which
    `splitlines` reads as the end of the line before it.
  */
  lemma {:induction false} SplitLinesDropsLastEmpty(data: seq<string>)
    requires forall i :: 0 <= i < |data| ==> NoNewline(data[i])
    requires LastLineEmpty(data)
    ensures SplitLines(JoinOneLine(data)) == data[..|data| - 1]
  {
    var a := data[..|data| - 1];
    assert a + [""] == data;
    if a == [] {
      assert data == [""];
    } else {
      JoinOneLineSnoc(a, "");
      var ja := JoinOneLine(a);
      var t := JoinOneLine(data);
      assert t == ja + "\n";
      assert t[|t| - 1] == '\n' && t[..|t| - 1] == ja;
      assert SplitLines(t) == SplitNewlines(ja);
      assert forall i :: 0 <= i < |a| ==> NoNewline(a[i]) by {
        assert forall i :: 0 <= i < |a| ==> a[i] == data[i];
      }
      SplitJoinRoundTrip(a);
    }
  }

  /**
    `check_integrity(file2)` on texts: when the line counts differ the
    origin's text is written over the second file. Either way the file ends
    with the origin's number of lines.
  */
  function CheckIntegrityText(originText: string, file2: string): (r: string)
    ensures |SplitLines(r)| == |SplitLines(originText)|
    ensures CheckLength(|SplitLines(originText)|, |SplitLines(file2)|) ==> r == file2
    ensures !CheckLength(|SplitLines(originText)|, |SplitLines(file2)|) ==> r == originText
  {
    if CheckLength(|SplitLines(originText)|, |SplitLines(file2)|) then file2 else originText
  }

  /**
    `check_same_data(destiny)` on texts: a destination that differs from the
    origin is written back as the join of its own lines, unchanged by
    `get_new_data` with the empty origin list. Only a final empty line is
    lost that way.
  */
  function CheckSameDataText(originText: string, destiny: string): (r: string)
    ensures destiny == originText ==> r == destiny
    ensures destiny != originText && !LastLineEmpty(SplitLines(destiny)) ==> SplitLines(r) == SplitLines(destiny)
    ensures destiny != originText && LastLineEmpty(SplitLines(destiny)) ==>
      SplitLines(r) == SplitLines(destiny)[..|SplitLines(destiny)| - 1]
  {
    if destiny == originText then destiny
    else
      var lines := SplitLines(destiny);
      NewDataEmptyOrigin(lines);
      if LastLineEmpty(lines) then
        SplitLinesDropsLastEmpty(lines);
        JoinOneLine(NewData([], lines))
      else
        SplitLinesJoin(lines);
        JoinOneLine(NewData([], lines))
  }

  /** What `__call__` leaves in the destination file, and whether `set_wsl_path` raised IndexError. */
  datatype Run = Run(written: string, raised: bool)

  /** `populate_new_data` over the destination's text, with the origin's lines loaded. */
  function PopulateText(origin: seq<string>, destiny: string, key: map<string, string>): (r: Run)
    requires forall k :: k in CertificateKeys ==> k in key
    ensures r.raised <==> exists i :: |SplitLines(destiny)| <= i < |origin| && IsCertificateLine(origin[i])
    ensures r.raised ==> r.written == destiny
    ensures !r.raised ==> r.written == JoinOneLine(WslPatched(origin, SplitLines(destiny), key))
  {
    var lines := SplitLines(destiny);
    if exists i :: |lines| <= i < |origin| && IsCertificateLine(origin[i]) then Run(destiny, true)
    else Run(JoinOneLine(WslPatched(origin, lines, key)), false)
  }

  /**
    `__call__` over the files' texts (the destination None when missing):
    `check_existence` creates it empty, then `check_integrity`,
    `check_same_data` and, with the origin's lines read, `populate_new_data`.
  */
  function CallText(originText: string, destiny: Option<string>, key: map<string, string>): Run
    requires forall k :: k in CertificateKeys ==> k in key
  {
    var existing := if destiny.Some? then destiny.value else "";
    var compared := CheckSameDataText(originText, CheckIntegrityText(originText, existing));
    PopulateText(SplitLines(originText), compared, key)
  }

  /**
    The destination that the rewrite of `check_same_data` shortens: it has
    the origin's number of lines, differs from the origin, and its last line
    is empty.
  */
  predicate LosesLastLine(originText: string, destiny: Option<string>) {
    var existing := if destiny.Some? then destiny.value else "";
    CheckLength(|SplitLines(originText)|, |SplitLines(existing)|) && existing != originText
    && LastLineEmpty(SplitLines(existing))
  }

  /** Every other destination is patched without error, with the lines CallResult gives. */
  lemma CallTextAgrees(originText: string, destiny: Option<string>, key: map<string, string>)
    requires forall k :: k in CertificateKeys ==> k in key
    requires !LosesLastLine(originText, destiny)
    ensures !CallText(originText, destiny, key).raised
    ensures CallText(originText, destiny, key).written ==
      JoinOneLine(CallResult(SplitLines(originText), if destiny.Some? then Some(SplitLines(destiny.value)) else None, key))
  {
    var origin := SplitLines(originText);
    var existing := if destiny.Some? then destiny.value else "";
    var e := SplitLines(existing);
    var checked := CheckIntegrityText(originText, existing);
    var compared := CheckSameDataText(originText, checked);
    assert SplitLines(compared) == CheckIntegrity(origin, e);
    NewDataEmptyOrigin(CheckIntegrity(origin, e));
  }

  /**
    A destination whose final empty line is lost: the call raises exactly
    when the origin's last line is a certificate line, and then leaves the
    destination one line short; otherwise it writes the patched shorter text.
  */
  lemma CallTextLosesLastLine(originText: string, destiny: Option<string>, key: map<string, string>)
    requires forall k :: k in CertificateKeys ==> k in key
    requires LosesLastLine(originText, destiny)
    ensures var origin := SplitLines(originText);
      CallText(originText, destiny, key).raised <==> IsCertificateLine(origin[|origin| - 1])
    ensures var e := SplitLines(destiny.value);
      CallText(originText, destiny, key).raised ==> SplitLines(CallText(originText, destiny, key).written) == e[..|e| - 1]
    ensures var e := SplitLines(destiny.value);
      !CallText(originText, destiny, key).raised ==>
        CallText(originText, destiny, key).written == JoinOneLine(WslPatched(SplitLines(originText), e[..|e| - 1], key))
  {
    var origin := SplitLines(originText);
    var existing := if destiny.Some? then destiny.value else "";
    var e := SplitLines(existing);
    assert destiny.Some? && existing == destiny.value;
    assert CheckIntegrityText(originText, existing) == existing;
    var compared := CheckSameDataText(originText, existing);
    var lines := e[..|e| - 1];
    assert SplitLines(compared) == lines;
    var n := |origin| - 1;
    assert |lines| == n;
    if IsCertificateLine(origin[n]) {
      assert |lines| <= n < |origin|;
    } else {
      forall i | |lines| <= i < |origin| ensures !IsCertificateLine(origin[i]) {
        assert i == n;
      }
    }
  }

  /** "client-key: k" is a certificate line. */
  lemma ClientKeyLine()
    ensures IsCertificateLine("client-key: k")
  {
    var line := "client-key: k";
    assert LeadingSpace(line) == 0 && TrailingSpace(line[0..]) == 0;
    assert line[0..][..|line| - 0] == line;
    assert StartsWith(Strip(line), CertificateKeys[2]);
  }

  /** The lines of the two texts of CallTextIndexError. */
  lemma ExampleLines()
    ensures SplitLines("p\nclient-key: k") == ["p", "client-key: k"]
    ensures SplitLines("p\n\n") == ["p", ""]
  {
    var o := ["p", "client-key: k"];
    assert JoinOneLine(o) == "p\nclient-key: k";
    assert NoNewline(o[1]);
    SplitLinesJoin(o);
    var d := ["p", "", ""];
    assert JoinOneLine(d) == "p\n\n";
    SplitLinesDropsLastEmpty(d);
    assert d[..2] == ["p", ""];
  }

  /**
    An origin of two lines ending in "client-key: k" and a destination
    "p\n\n" of as many lines: `check_same_data` rewrites the destination to
    a single line, and `set_wsl_path` raises at index 1.
  */
  lemma CallTextIndexError(key: map<string, string>)
    requires forall k :: k in CertificateKeys ==> k in key
    ensures |SplitLines("p\nclient-key: k")| == |SplitLines("p\n\n")| == 2
    ensures CallText("p\nclient-key: k", Some("p\n\n"), key).raised
    ensures SplitLines(CallText("p\nclient-key: k", Some("p\n\n"), key).written) == ["p"]
  {
    ExampleLines();
    ClientKeyLine();
    var e := ["p", ""];
    assert e[..|e| - 1] == ["p"];
    assert LosesLastLine("p\nclient-key: k", Some("p\n\n"));
    CallTextLosesLastLine("p\nclient-key: k", Some("p\n\n"), key);
  }

  /** A certificate line written with a newline-free path has no newline and is not empty. */
  lemma CertLineNoNewline(k: string, key: map<string, string>)
    requires k in CertificateKeys && k in key && NoNewline(key[k])
    ensures NoNewline(CertLine(k, key)) && CertLine(k, key) != ""
  {
    var line := CertLine(k, key);
    assert NoNewline(k) by {
      assert CertificateKeys[0] == CertificateAuthority && CertificateKeys[1] == ClientCertificate;
      assert CertificateKeys[2] == ClientKey;
    }
    forall i | 0 <= i < |line| ensures line[i] != '\n' {
      if i < 4 {
        assert line[i] == line[..4][i];
      } else if i < 4 + |k| {
        assert line[i] == line[4..4 + |k|][i - 4];
      } else if i < 6 + |k| {
        assert line[i] == line[4 + |k|..6 + |k|][i - 4 - |k|];
      } else {
        assert line[i] == line[6 + |k|..][i - 6 - |k|];
      }
    }
  }

  /**
    The lines CallResult writes contain no newline, and the last one is
    empty only when it is the origin's own empty last line carried over
    from a destination that already had the origin's lines.
  */
  lemma CallResultLines(origin: seq<string>, destiny: Option<seq<string>>, key: map<string, string>)
    requires forall k :: k in CertificateKeys ==> k in key && NoNewline(key[k])
    requires forall i :: 0 <= i < |origin| ==> NoNewline(origin[i])
    requires destiny.Some? ==> forall i :: 0 <= i < |destiny.value| ==> NoNewline(destiny.value[i])
    ensures var r := CallResult(origin, destiny, key);
      forall i :: 0 <= i < |r| ==> NoNewline(r[i])
    ensures var r := CallResult(origin, destiny, key);
      LastLineEmpty(r) ==>
        (!IsCertificateLine(origin[|origin| - 1])
         && r[|r| - 1] == CheckIntegrity(origin, if destiny.Some? then destiny.value else [])[|origin| - 1])
  {
    var r := CallResult(origin, destiny, key);
    var existing := if destiny.Some? then destiny.value else [];
    var checked := CheckIntegrity(origin, existing);
    CallPatchesCertificates(origin, destiny, key);
    NewDataEmptyOrigin(checked);
    forall i | 0 <= i < |r| ensures NoNewline(r[i]) {
      if IsCertificateLine(origin[i]) {
        CertLineNoNewline(CertKeyOf(origin[i]).value, key);
      } else {
        assert r[i] == checked[i];
      }
    }
    if LastLineEmpty(r) {
      var n := |origin| - 1;
      assert r[n] == checked[n];
    }
  }

  /**
    Running the patcher again on what it wrote writes the same text, for
    every destination whose final empty line is not lost, given paths
    without newlines.
  */
  lemma CallTextIdempotent(originText: string, destiny: Option<string>, key: map<string, string>)
    requires forall k :: k in CertificateKeys ==> k in key && NoNewline(key[k])
    requires !LosesLastLine(originText, destiny)
    ensures var first := CallText(originText, destiny, key);
      CallText(originText, Some(first.written), key) == first
  {
    var origin := SplitLines(originText);
    var existing := if destiny.Some? then destiny.value else "";
    var e := SplitLines(existing);
    var eo := if destiny.Some? then Some(SplitLines(destiny.value)) else None;
    var r := CallResult(origin, eo, key);
    var w := JoinOneLine(r);
    CallTextAgrees(originText, destiny, key);
    assert CallText(originText, destiny, key) == Run(w, false);
    CallResultLines(origin, eo, key);
    CallPatchesCertificates(origin, eo, key);
    if !LastLineEmpty(r) {
      SplitLinesJoin(r);
      assert !LosesLastLine(originText, Some(w));
      CallTextAgrees(originText, Some(w), key);
      CallIdempotent(origin, eo, key);
    } else {
      var n := |origin| - 1;
      var checked := CheckIntegrity(origin, e);
      assert checked == origin;
      assert origin[n] == "";
      SplitLinesDropsLastEmpty(r);
      assert |SplitLines(w)| == n;
      assert !LosesLastLine(originText, Some(w));
      CallTextAgrees(originText, Some(w), key);
      assert CheckIntegrity(origin, SplitLines(w)) == origin;
      NewDataEmptyOrigin(origin);
    }
  }

  /** The lines of the texts of CallTextRerunDiffers. */
  lemma RerunLines()
    ensures SplitLines("x\n\n") == ["x", ""] && SplitLines("y\n\n") == ["y", ""]
    ensures SplitLines("y") == ["y"]
  {
    var o := ["x", "", ""];
    assert JoinOneLine(o) == "x\n\n";
    SplitLinesDropsLastEmpty(o);
    assert o[..2] == ["x", ""];
    var d := ["y", "", ""];
    assert JoinOneLine(d) == "y\n\n";
    SplitLinesDropsLastEmpty(d);
    assert d[..2] == ["y", ""];
    SplitLinesJoin(["y"]);
  }

  /** With no certificate line in the origin, a destination that loses its last line is written without it. */
  lemma CallTextLostLinePlain(originText: string, d: string, key: map<string, string>)
    requires forall k :: k in CertificateKeys ==> k in key
    requires LosesLastLine(originText, Some(d))
    requires var origin := SplitLines(originText);
      forall i :: 0 <= i < |origin| ==> !IsCertificateLine(origin[i])
    ensures var e := SplitLines(d);
      CallText(originText, Some(d), key) == Run(JoinOneLine(e[..|e| - 1]), false)
  {
    var origin := SplitLines(originText);
    var e := SplitLines(d);
    CallTextLosesLastLine(originText, Some(d), key);
    WslPatchedPlain(origin, e[..|e| - 1], key);
  }

  /** The first run of CallTextRerunDiffers: "y\n\n" loses its empty line and is written as "y". */
  lemma RerunFirst(key: map<string, string>)
    requires forall k :: k in CertificateKeys ==> k in key
    ensures LosesLastLine("x\n\n", Some("y\n\n"))
    ensures CallText("x\n\n", Some("y\n\n"), key) == Run("y", false)
  {
    var origin := ["x", ""];
    assert LosesLastLine("x\n\n", Some("y\n\n")) && SplitLines("x\n\n") == origin
      && SplitLines("y\n\n")[..1] == ["y"] by {
      RerunLines();
      assert ["y", ""][..1] == ["y"];
    }
    forall i | 0 <= i < |origin| ensures !IsCertificateLine(origin[i]) {
      ShortLinePlain(origin[i]);
    }
    CallTextLostLinePlain("x\n\n", "y\n\n", key);
  }



  /** A destination whose line count fails the length check is replaced by the patched origin, without error. */
  lemma CallTextWrongLength(originText: string, d: string, key: map<string, string>)
    requires forall k :: k in CertificateKeys ==> k in key
    requires !CheckLength(|SplitLines(originText)|, |SplitLines(d)|)
    ensures var origin := SplitLines(originText);
      CallText(originText, Some(d), key) == Run(JoinOneLine(WslPatched(origin, origin, key)), false)
  {
    assert CheckIntegrityText(originText, d) == originText;
    assert CheckSameDataText(originText, originText) == originText;
  }

  /** With no certificate line in the origin, patching changes none of the destination's lines. */
  lemma WslPatchedPlain(origin: seq<string>, destiny: seq<string>, key: map<string, string>)
    requires forall k :: k in CertificateKeys ==> k in key
    requires forall i :: 0 <= i < |origin| ==> !IsCertificateLine(origin[i])
    ensures WslPatched(origin, destiny, key) == destiny
  {
  }

  /** A line shorter than every certificate key is no certificate line. */
  lemma ShortLinePlain(line: string)
    requires |line| < |ClientKey|
    ensures !IsCertificateLine(line)
  {
    assert |Strip(line)| <= |line|;
  }

  /** The lines "x" and "" are left as they are by `set_wsl_path`. */
  lemma PlainPatched(key: map<string, string>)
    requires forall k :: k in CertificateKeys ==> k in key
    ensures WslPatched(["x", ""], ["x", ""], key) == ["x", ""]
  {
    var origin := ["x", ""];
    forall i | 0 <= i < |origin| ensures !IsCertificateLine(origin[i]) {
      ShortLinePlain(origin[i]);
    }
    WslPatchedPlain(origin, origin, key);
  }

  /** The second run of CallTextRerunDiffers: "y" has one line for two, so the origin's text is patched. */
  lemma RerunSecond(key: map<string, string>)
    requires forall k :: k in CertificateKeys ==> k in key
    ensures CallText("x\n\n", Some("y"), key) == Run("x\n", false)
  {
    var origin := ["x", ""];
    assert CallText("x\n\n", Some("y"), key) == Run(JoinOneLine(WslPatched(origin, origin, key)), false) by {
      assert SplitLines("x\n\n") == origin && |SplitLines("y")| == 1 by {
        RerunLines();
      }
      CallTextWrongLength("x\n\n", "y", key);
    }
    PlainPatched(key);
    assert JoinOneLine(origin) == "x\n";
  }

  /**
    A destination that loses its final empty line is not left as the first
    run wrote it: with origin "x\n\n", the destination "y\n\n" is written as
    "y", and a second run, finding one line for two, writes "x\n".
  */
  lemma CallTextRerunDiffers(key: map<string, string>)
    requires forall k :: k in CertificateKeys ==> k in key
    ensures LosesLastLine("x\n\n", Some("y\n\n"))
    ensures var first := CallText("x\n\n", Some("y\n\n"), key);
      first.written == "y" && CallText("x\n\n", Some(first.written), key).written == "x\n"
  {
    RerunFirst(key);
    RerunSecond(key);
  }

  /** The patcher: the WSL share and the lines of the origin file once they are read. */
  class Switcher {
    const path: string
    const home: string
    const origin: string
    const destiny: string
    var originFile: seq<string>

    /** `__init__`: paths under the home directory, taken from the environment, and no lines yet. */
    constructor (constant: Constants, env: map<string, string>)
      ensures path == constant.WSL_PATH
      ensures home == HomeDirectory(env, constant.HOME)
      ensures origin == home + "/" + constant.ORIGIN && destiny == home + "/" + constant.DESTINY
      ensures originFile == []
    {
      path := constant.WSL_PATH;
      var h := HomeDirectory(env, constant.HOME);
      home := h;
      origin := h + "/" + constant.ORIGIN;
      destiny := h + "/" + constant.DESTINY;
      originFile := [];
    }

    /** `self.origin_file = self.read_text(self.origin)`, given the lines read. */
    method LoadOrigin(lines: seq<string>)
      modifies this
      ensures originFile == lines
    {
      originFile := lines;
    }

    /**
      `get_new_data(to_file)`: every origin line that is not a certificate
      line is copied into the same index; certificate lines and the lines
      past the origin's end stay as they were.
    */
    method GetNewData(toFile: array<string>)
      requires |originFile| <= toFile.Length
      modifies toFile
      ensures forall i :: 0 <= i < |originFile| ==>
        toFile[i] == (if IsCertificateLine(originFile[i]) then old(toFile[i]) else originFile[i])
      ensures forall i :: |originFile| <= i < toFile.Length ==> toFile[i] == old(toFile[i])
      ensures toFile[..] == NewData(originFile, old(toFile[..]))
    {
      for index := 0 to |originFile|
        invariant forall i :: 0 <= i < index ==>
          toFile[i] == (if IsCertificateLine(originFile[i]) then old(toFile[i]) else originFile[i])
        invariant forall i :: index <= i < toFile.Length ==> toFile[i] == old(toFile[i])
      {
        var line := originFile[index];
        if toFile[index] != line && !IsCertificateLine(line) {
          toFile[index] := line;
        }
      }
    }

    /** The body of the `set_wsl_path` loop for one index: the three tests in sequence. */
    method SetWslLine(destiny: array<string>, key: map<string, string>, index: nat)
      requires forall k :: k in CertificateKeys ==> k in key
      requires index < |originFile|
      requires IsCertificateLine(originFile[index]) ==> index < destiny.Length
      modifies destiny
      ensures index < destiny.Length ==> destiny[index] == PatchLine(originFile[index], old(destiny[index]), key)
      ensures forall i :: 0 <= i < destiny.Length && i != index ==> destiny[i] == old(destiny[i])
    {
      var line := originFile[index];
      ghost var current := if index < destiny.Length then destiny[index] else "";
      SequentialTests(line, current, key);
      if StripLine(line, CertificateAuthority) {
        destiny[index] := CertLine(CertificateAuthority, key);
      }
      if StripLine(line, ClientCertificate) {
        destiny[index] := CertLine(ClientCertificate, key);
      }
      if StripLine(line, ClientKey) {
        destiny[index] := CertLine(ClientKey, key);
      }
    }

    /**
      `set_wsl_path(destiny, key)`: each line whose origin line starts with
      certificate key k becomes "    k: " followed by key[k]; all other lines
      stay. The three tests run one after another, and at most one holds.
    */
    method SetWslPath(destiny: array<string>, key: map<string, string>)
      requires forall k :: k in CertificateKeys ==> k in key
      requires forall i :: 0 <= i < |originFile| && IsCertificateLine(originFile[i]) ==> i < destiny.Length
      modifies destiny
      ensures forall i :: 0 <= i < destiny.Length ==>
        destiny[i] == (if i < |originFile| then PatchLine(originFile[i], old(destiny[i]), key) else old(destiny[i]))
      ensures |originFile| <= destiny.Length ==> destiny[..] == WslPatched(originFile, old(destiny[..]), key)
    {
      for index := 0 to |originFile|
        invariant forall i :: 0 <= i < index && i < destiny.Length ==> destiny[i] == PatchLine(originFile[i], old(destiny[i]), key)
        invariant forall i :: index <= i < destiny.Length ==> destiny[i] == old(destiny[i])
      {
        SetWslLine(destiny, key, index);
      }
    }
  }
}
