/**
 The release file of an integration-test run (scripts/run-tests): two passes over its lines override the versions of
 the operators named on the command line and drop the operators to be skipped.

 A file is its lines without their line ends. Versions hold no backslash, which the replacement would interpret.
 */
module ReleaseFile {
  import opened Wrappers

  datatype Error = NotPatched(operators: set<string>) | NotSkipped(operators: set<string>)

  // ---------------------------------------------------------------- single lines

  predicate Contains(line: string, part: string) {
    exists i :: 0 <= i <= |line| && part <= line[i..]
  }

  function FirstColon(line: string): nat
    ensures FirstColon(line) <= |line|
    ensures forall i :: 0 <= i < FirstColon(line) ==> line[i] != ':'
    ensures FirstColon(line) < |line| ==> line[FirstColon(line)] == ':'
  {
    if line == [] || line[0] == ':' then 0 else 1 + FirstColon(line[1..])
  }

  /** Replaces everything from the first colon that has something after it. */
  function WithVersion(line: string, version: string): string {
    var i := FirstColon(line);
    if i + 1 < |line| then line[..i] + [':', ' '] + version else line
  }

  /** The first operator on the list whose name occurs in the line. */
  function FirstOperator(line: string, operators: seq<(string, string)>): Option<(string, string)> {
    if operators == [] then None
    else if Contains(line, operators[0].0) then Some(operators[0])
    else FirstOperator(line, operators[1..])
  }

  function FirstSkipped(line: string, skipOps: seq<string>): Option<string> {
    if skipOps == [] then None
    else if Contains(line, skipOps[0]) then Some(skipOps[0])
    else FirstSkipped(line, skipOps[1..])
  }

  /** A line matches when the name stands somewhere in it, in whatever company. */
  lemma ContainsExactly(line: string, part: string)
    ensures Contains(line, part) <==> exists front, back :: line == front + part + back
  {
    if i :| 0 <= i <= |line| && part <= line[i..] {
      assert line == line[..i] + part + line[i + |part|..];
    }
    if front, back :| line == front + part + back {
      assert line[|front|..] == part + back;
    }
  }

  /** A version replaces what follows the leftmost colon; a line without a colon before its end stays as it is. */
  lemma WithVersionExactly(line: string, version: string)
    ensures forall front, rest :: line == front + ":" + rest && ':' !in front && rest != "" ==>
              WithVersion(line, version) == front + ": " + version
    ensures (forall i :: 0 <= i < |line| - 1 ==> line[i] != ':') ==> WithVersion(line, version) == line
  {
    forall front, rest | line == front + ":" + rest && ':' !in front && rest != ""
      ensures WithVersion(line, version) == front + ": " + version
    {
      assert line[|front|] == ':';
      assert forall i :: 0 <= i < |front| ==> line[i] == front[i];
      assert FirstColon(line) == |front| && line[..|front|] == front;
    }
  }

  /** The operators are tried in the order given. */
  lemma {:induction false} FirstOperatorExactly(line: string, operators: seq<(string, string)>)
    ensures FirstOperator(line, operators).None?
            <==> forall j :: 0 <= j < |operators| ==> !Contains(line, operators[j].0)
    ensures forall k :: 0 <= k < |operators| && Contains(line, operators[k].0)
                        && (forall j :: 0 <= j < k ==> !Contains(line, operators[j].0)) ==>
              FirstOperator(line, operators) == Some(operators[k])
  {
    hide Contains;
    if operators != [] && !Contains(line, operators[0].0) {
      var rest := operators[1..];
      FirstOperatorExactly(line, rest);
      assert forall j :: 0 < j < |operators| ==> operators[j] == rest[j - 1];
      forall k | 0 <= k < |operators| && Contains(line, operators[k].0)
                 && (forall j :: 0 <= j < k ==> !Contains(line, operators[j].0))
        ensures FirstOperator(line, operators) == Some(operators[k])
      {
        assert forall j :: 0 <= j < k - 1 ==> rest[j] == operators[j + 1];
        assert rest[k - 1] == operators[k];
      }
      assert forall j :: 0 <= j < |rest| ==> rest[j] == operators[j + 1];
    }
  }

  lemma {:induction false} FirstSkippedExactly(line: string, skipOps: seq<string>)
    ensures FirstSkipped(line, skipOps).None? <==> forall op :: op in skipOps ==> !Contains(line, op)
    ensures FirstSkipped(line, skipOps).Some? ==>
              exists k :: 0 <= k < |skipOps| && FirstSkipped(line, skipOps) == Some(skipOps[k])
                          && Contains(line, skipOps[k]) && forall op :: op in skipOps[..k] ==> !Contains(line, op)
  {
    hide Contains;
    if skipOps != [] {
      if Contains(line, skipOps[0]) {
        assert skipOps[..0] == [];
      } else {
        var rest := skipOps[1..];
        FirstSkippedExactly(line, rest);
        if FirstSkipped(line, skipOps).Some? {
          var k :| 0 <= k < |rest| && FirstSkipped(line, rest) == Some(rest[k])
                   && Contains(line, rest[k]) && forall op :: op in rest[..k] ==> !Contains(line, op);
          assert skipOps[..k + 1] == [skipOps[0]] + rest[..k];
          assert skipOps[k + 1] == rest[k];
        }
      }
    }
  }

  // ---------------------------------------------------------------- the two passes

  /** `version`, unless empty, goes into the next line. */
  datatype Patching = Patching(lines: seq<string>, patchedOps: seq<string>, version: string)

  function PatchLine(p: Patching, line: string, operators: seq<(string, string)>): Patching {
    if p.version != [] then Patching(p.lines + [WithVersion(line, p.version)], p.patchedOps, [])
    else
      match FirstOperator(line, operators)
      case Some(operator) => Patching(p.lines + [line], p.patchedOps + [operator.0], operator.1)
      case None => Patching(p.lines + [line], p.patchedOps, [])
  }

  function PatchLines(lines: seq<string>, operators: seq<(string, string)>): Patching {
    if lines == [] then Patching([], [], [])
    else PatchLine(PatchLines(lines[..|lines| - 1], operators), lines[|lines| - 1], operators)
  }

  datatype Skipping = Skipping(lines: seq<string>, validSkipOps: seq<string>, skipLines: nat)

  function SkipLine(s: Skipping, line: string, skipOps: seq<string>): Skipping {
    if s.skipLines > 0 then s.(skipLines := s.skipLines - 1)
    else
      match FirstSkipped(line, skipOps)
      case Some(op) => Skipping(s.lines, s.validSkipOps + [op], 1)
      case None => s.(lines := s.lines + [line])
  }

  function SkipLines(lines: seq<string>, skipOps: seq<string>): Skipping {
    if lines == [] then Skipping([], [], 0)
    else SkipLine(SkipLines(lines[..|lines| - 1], skipOps), lines[|lines| - 1], skipOps)
  }

  function Names(operators: seq<(string, string)>): set<string> {
    set operator | operator in operators :: operator.0
  }

  function Elements(ops: seq<string>): set<string> {
    set op | op in ops
  }

  function Patched(lines: seq<string>, operators: seq<(string, string)>, skipOps: seq<string>)
    : Result<seq<string>, Error>
  {
    var first := PatchLines(lines, operators);
    var notPatched := Names(operators) - Elements(first.patchedOps);
    if notPatched != {} then Err(NotPatched(notPatched))
    else
      var second := SkipLines(first.lines, skipOps);
      var notSkipped := Elements(skipOps) - Elements(second.validSkipOps);
      if notSkipped != {} then Err(NotSkipped(notSkipped)) else Ok(second.lines)
  }

  method Patch(lines: seq<string>, operators: seq<(string, string)>, skipOps: seq<string>)
    returns (contents: Result<seq<string>, Error>)
    ensures contents == Patched(lines, operators, skipOps)
  {
    var patchedRelease: seq<string> := [];
    var patchedOps: seq<string> := [];
    var patchVersion: string := [];
    for i := 0 to |lines|
      invariant Patching(patchedRelease, patchedOps, patchVersion) == PatchLines(lines[..i], operators)
    {
      assert lines[..i + 1][..i] == lines[..i];
      var line := lines[i];
      if patchVersion != [] {
        line := WithVersion(line, patchVersion);
        patchVersion := [];
      } else {
        for j := 0 to |operators|
          invariant FirstOperator(line, operators) == FirstOperator(line, operators[j..])
          invariant patchVersion == []
        {
          var (op, version) := operators[j];
          if Contains(line, op) {
            patchVersion := version;
            patchedOps := patchedOps + [op];
            break;
          }
        }
      }
      patchedRelease := patchedRelease + [line];
    }
    assert lines[..|lines|] == lines;
    var opsNotPatched := Names(operators) - Elements(patchedOps);
    if opsNotPatched != {} {
      return Err(NotPatched(opsNotPatched));
    }

    var releaseContents: seq<string> := [];
    var skipLines: nat := 0;
    var validSkipOps: seq<string> := [];
    for i := 0 to |patchedRelease|
      invariant Skipping(releaseContents, validSkipOps, skipLines) == SkipLines(patchedRelease[..i], skipOps)
    {
      assert patchedRelease[..i + 1][..i] == patchedRelease[..i];
      var line := patchedRelease[i];
      if skipLines > 0 {
        skipLines := skipLines - 1;
        continue;
      }
      var kept := true;
      for j := 0 to |skipOps|
        invariant kept && FirstSkipped(line, skipOps) == FirstSkipped(line, skipOps[j..])
      {
        if Contains(line, skipOps[j]) {
          skipLines := 1;
          validSkipOps := validSkipOps + [skipOps[j]];
          kept := false;
          break;
        }
      }
      if kept {
        releaseContents := releaseContents + [line];
      }
    }
    assert patchedRelease[..|patchedRelease|] == patchedRelease;
    var opsNotSkipped := Elements(skipOps) - Elements(validSkipOps);
    contents := if opsNotSkipped != {} then Err(NotSkipped(opsNotSkipped)) else Ok(releaseContents);
  }
}
