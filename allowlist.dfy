/**
 * Window-ownership classifier: decides whether a window belongs to a
 * VS Code process by the executable name of its owner.
 *
 * The window-system and process-table queries are not modelled; their
 * outcome is an input of type WindowOwner: either no window (a null
 * handle), or a window whose owning process either has an executable
 * name or could not be inspected (psutil.Error).
 */
module Allowlist {

  /** Outcome of looking up the executable name of a window's owning process. */
  datatype ProcessName = Name(exe: string) | ProcessError

  /** Outcome of resolving a window handle (foreground or under the pointer). */
  datatype WindowOwner = NoWindow | Window(process: ProcessName)

  predicate IsUpper(c: char) {
    'A' <= c <= 'Z'
  }

  /** ASCII lower-casing of one character. */
  function LowerChar(c: char): (r: char)
    ensures !IsUpper(r)
    ensures IsUpper(c) ==> r as int == c as int + 32
    ensures !IsUpper(c) ==> r == c
  {
    if IsUpper(c) then (c as int + 32) as char else c
  }

  /** Lower-casing of a whole name, character by character. */
  function Lower(s: string): (r: string)
    ensures |r| == |s|
    ensures forall i :: 0 <= i < |s| ==> r[i] == LowerChar(s[i])
  {
    if s == [] then [] else [LowerChar(s[0])] + Lower(s[1..])
  }

  /** A name with no upper-case letter. */
  predicate IsLowerCase(s: string) {
    forall i :: 0 <= i < |s| ==> !IsUpper(s[i])
  }

  /** Reference definition: two names that differ only in the case of ASCII letters. */
  predicate EqualIgnoringCase(a: string, b: string) {
    |a| == |b| && forall i :: 0 <= i < |a| ==> LowerChar(a[i]) == LowerChar(b[i])
  }

  /**
   * `VS_CODE_EXE`: the three distinct executable names that count as
   * VS Code, all written in lower case.
   */
  function VsCodeExe(): (names: set<string>)
    ensures |names| == 3
    ensures forall e :: e in names ==> IsLowerCase(e)
  {
    var names := {"code.exe", "code - insiders.exe", "vscode.exe"};
    assert forall e :: e in names ==> e == "code.exe" || e == "code - insiders.exe" || e == "vscode.exe";
    names
  }

  /**
   * `name.lower() in VS_CODE_EXE`: the name equals one of the allow-listed
   * names up to ASCII case, and nothing shorter, longer or otherwise
   * different.
   */
  function IsVsCodeName(name: string): (r: bool)
    ensures r <==> exists e :: e in VsCodeExe() && EqualIgnoringCase(name, e)
  {
    LowerInAllowlistIff(name);
    Lower(name) in VsCodeExe()
  }

  /** `_pid_is_vscode`: a process that cannot be inspected is not VS Code. */
  function PidIsVsCode(p: ProcessName): (r: bool)
    ensures p == ProcessError ==> !r
    ensures p.Name? ==> (r <==> exists e :: e in VsCodeExe() && EqualIgnoringCase(p.exe, e))
  {
    match p
    case Name(exe) => IsVsCodeName(exe)
    case ProcessError => false
  }

  /**
   * `_foreground_is_vscode` and `_window_at_point_is_vscode` after their
   * window query: a window is VS Code iff the handle is not null, its
   * owning process can be inspected and the executable name matches the
   * allowlist up to case.
   */
  function WindowIsVsCode(w: WindowOwner): (r: bool)
    ensures r <==> w.Window? && w.process.Name? &&
                   exists e :: e in VsCodeExe() && EqualIgnoringCase(w.process.exe, e)
  {
    match w
    case NoWindow => false
    case Window(p) => PidIsVsCode(p)
  }

  /** Lower-casing leaves lower-case names alone. */
  lemma {:induction false} LowerOfLowerCase(s: string)
    requires IsLowerCase(s)
    ensures Lower(s) == s
  {
    if s != [] {
      assert IsLowerCase(s[1..]) by {
        forall i | 0 <= i < |s[1..]| ensures !IsUpper(s[1..][i]) {
          assert s[1..][i] == s[i + 1];
        }
      }
      LowerOfLowerCase(s[1..]);
    }
  }

  /** The result of lower-casing has no upper-case letter, so lower-casing is idempotent. */
  lemma LowerIdempotent(s: string)
    ensures IsLowerCase(Lower(s))
    ensures Lower(Lower(s)) == Lower(s)
  {
    LowerOfLowerCase(Lower(s));
  }

  /** Comparing lower-cased names is exactly comparing while ignoring case. */
  lemma {:induction false} LowerEqualIff(a: string, b: string)
    ensures Lower(a) == Lower(b) <==> EqualIgnoringCase(a, b)
  {
    if Lower(a) == Lower(b) {
      forall i | 0 <= i < |a| ensures LowerChar(a[i]) == LowerChar(b[i]) {
        assert Lower(a)[i] == Lower(b)[i];
      }
    }
    if EqualIgnoringCase(a, b) {
      assert Lower(a) == Lower(b) by {
        forall i | 0 <= i < |a| ensures Lower(a)[i] == Lower(b)[i] {
          assert LowerChar(a[i]) == LowerChar(b[i]);
        }
      }
    }
  }

  /**
   * Exact membership of the lower-cased name is a case-insensitive match,
   * because every allow-listed name is already lower case.
   */
  lemma LowerInAllowlistIff(name: string)
    ensures Lower(name) in VsCodeExe() <==> exists e :: e in VsCodeExe() && EqualIgnoringCase(name, e)
  {
    if Lower(name) in VsCodeExe() {
      var e := Lower(name);
      LowerOfLowerCase(e);
      LowerEqualIff(name, e);
    }
    if e :| e in VsCodeExe() && EqualIgnoringCase(name, e) {
      LowerOfLowerCase(e);
      LowerEqualIff(name, e);
    }
  }

  /** Case-insensitive: names that differ only in case are classified alike. */
  lemma IsVsCodeNameIgnoresCase(a: string, b: string)
    requires EqualIgnoringCase(a, b)
    ensures IsVsCodeName(a) == IsVsCodeName(b)
  {
    LowerEqualIff(a, b);
    assert Lower(a) == Lower(b);
  }

  /** A null window handle or a failed process lookup is never VS Code. */
  lemma LookupFailureIsNotVsCode(w: WindowOwner)
    requires w == NoWindow || w == Window(ProcessError)
    ensures !WindowIsVsCode(w)
  {
  }

  /** A mixed-case spelling of an allow-listed name is accepted. */
  lemma AcceptsMixedCase()
    ensures IsVsCodeName("Code.exe")
  {
    var l := Lower("Code.exe");
    assert l == "code.exe";
  }

  /** An all-capitals spelling of the Insiders build is accepted. */
  lemma AcceptsInsidersInCapitals()
    ensures IsVsCodeName("CODE - INSIDERS.EXE")
  {
    assert EqualIgnoringCase("CODE - INSIDERS.EXE", "code - insiders.exe");
  }

  /** A prefix of an allow-listed name is rejected: membership is exact. */
  lemma RejectsPrefix()
    ensures !IsVsCodeName("code")
  {
    var l := Lower("code");
    assert |l| == 4;
  }

  /** A trailing space is not trimmed: the name is rejected. */
  lemma RejectsTrailingSpace()
    ensures !IsVsCodeName("code.exe ")
  {
    var l := Lower("code.exe ");
    assert |l| == 9 && l[8] == ' ';
  }
}
