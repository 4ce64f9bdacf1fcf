/**
 What rewriting a release file means (scripts/run-tests): a file as a document of product sections, when exactly the
 rewriting does to it what the command line asks for, and the file as a map from products to versions.
 */
module ReleaseDocuments {
  import opened Wrappers
  import opened ReleaseFile

  /** A line of no product, or a product's section: the line naming it and its version line. */
  datatype Entry = Other(text: string) | Product(name: string, head: string, key: string, version: string)

  function VersionLine(key: string, version: string): string {
    key + [':', ' '] + version
  }

  function Lines(entry: Entry): seq<string> {
    match entry
    case Other(text) => [text]
    case Product(_, head, key, version) => [head, VersionLine(key, version)]
  }

  function Render(doc: seq<Entry>): seq<string> {
    if doc == [] then [] else Render(doc[..|doc| - 1]) + Lines(doc[|doc| - 1])
  }

  /** The document with every entry changed by `change`, except those that are dropped. */
  function Rewritten(doc: seq<Entry>, dropped: Entry -> bool, change: Entry -> Entry): seq<Entry> {
    if doc == [] then []
    else
      var last := doc[|doc| - 1];
      Rewritten(doc[..|doc| - 1], dropped, change) + if dropped(last) then [] else [change(last)]
  }

  function Never(): Entry -> bool { e => false }

  function Same(): Entry -> Entry { e => e }

  // ---------------------------------------------------------------- what is asked for

  /** The version given for an operator; the first one counts. */
  function Assigned(operators: seq<(string, string)>, name: string): Option<string> {
    if operators == [] then None
    else if operators[0].0 == name then Some(operators[0].1)
    else Assigned(operators[1..], name)
  }

  /** An empty version leaves the old one. */
  function WithGiven(entry: Entry, version: Option<string>): Entry {
    if entry.Product? && version.GetOr([]) != [] then entry.(version := version.value) else entry
  }

  function Override(entry: Entry, operators: seq<(string, string)>): Entry {
    if entry.Product? then WithGiven(entry, Assigned(operators, entry.name)) else entry
  }

  function PatchingByName(operators: seq<(string, string)>): Entry -> Entry { e => Override(e, operators) }

  predicate Skipped(entry: Entry, skipOps: seq<string>) {
    entry.Product? && entry.name in skipOps
  }

  function SkippingByName(skipOps: seq<string>): Entry -> bool { e => Skipped(e, skipOps) }

  ghost function Products(doc: seq<Entry>): set<string> {
    set k | 0 <= k < |doc| && doc[k].Product? :: doc[k].name
  }

  /** Versions overridden and sections dropped by name, everything else in place; an operator without a section is
   an error, in the order the rewriting checks them. */
  ghost function Asked(doc: seq<Entry>, operators: seq<(string, string)>, skipOps: seq<string>)
    : Result<seq<string>, Error>
  {
    if Names(operators) - Products(doc) != {} then Err(NotPatched(Names(operators) - Products(doc)))
    else if Elements(skipOps) - Products(doc) != {} then Err(NotSkipped(Elements(skipOps) - Products(doc)))
    else Ok(Render(Rewritten(doc, SkippingByName(skipOps), PatchingByName(operators))))
  }

  // ---------------------------------------------------------------- what the lines decide

  function Given(operator: Option<(string, string)>): Option<string> {
    match operator
    case Some(o) => Some(o.1)
    case None => None
  }

  /** The section patched by the first operator whose name occurs in its line, whoever that is. */
  function ByLine(entry: Entry, operators: seq<(string, string)>): Entry {
    if entry.Product? then WithGiven(entry, Given(FirstOperator(entry.head, operators))) else entry
  }

  function PatchingByLine(operators: seq<(string, string)>): Entry -> Entry { e => ByLine(e, operators) }

  predicate SkippedByLine(entry: Entry, skipOps: seq<string>) {
    entry.Product? && FirstSkipped(entry.head, skipOps).Some?
  }

  function SkippingByLine(skipOps: seq<string>): Entry -> bool { e => SkippedByLine(e, skipOps) }

  function Hit(entry: Entry, operators: seq<(string, string)>): set<string> {
    if entry.Product? && FirstOperator(entry.head, operators).Some?
    then {FirstOperator(entry.head, operators).value.0} else {}
  }

  function SkipHit(entry: Entry, skipOps: seq<string>): set<string> {
    if SkippedByLine(entry, skipOps) then {FirstSkipped(entry.head, skipOps).value} else {}
  }

  /** The operators some section's line is patched for. */
  function Met(doc: seq<Entry>, operators: seq<(string, string)>): set<string> {
    if doc == [] then {} else Met(doc[..|doc| - 1], operators) + Hit(doc[|doc| - 1], operators)
  }

  function SkipsMet(doc: seq<Entry>, skipOps: seq<string>): set<string> {
    if doc == [] then {} else SkipsMet(doc[..|doc| - 1], skipOps) + SkipHit(doc[|doc| - 1], skipOps)
  }

  ghost predicate Quiet(line: string, names: set<string>) {
    forall name :: name in names ==> !Contains(line, name)
  }

  /** No name occurs outside the lines that introduce products. */
  ghost predicate QuietBody(entry: Entry, names: set<string>) {
    match entry
    case Other(text) => Quiet(text, names)
    case Product(_, _, key, version) => ':' !in key && Quiet(VersionLine(key, version), names)
  }

  ghost predicate QuietBodies(doc: seq<Entry>, operators: seq<(string, string)>, skipOps: seq<string>) {
    forall k :: 0 <= k < |doc| ==>
      QuietBody(doc[k], Names(operators)) && QuietBody(ByLine(doc[k], operators), Elements(skipOps))
  }

  // ---------------------------------------------------------------- the first pass

  lemma {:induction false} FirstOperatorOf(line: string, operators: seq<(string, string)>)
    ensures FirstOperator(line, operators).None? <==> Quiet(line, Names(operators))
    ensures FirstOperator(line, operators).Some? ==>
              var (name, version) := FirstOperator(line, operators).value;
              name in Names(operators) && Contains(line, name) && Assigned(operators, name) == Some(version)
  {
    if operators != [] {
      FirstOperatorOf(line, operators[1..]);
      NamesUncons(operators);
    }
  }

  lemma NamesUncons(operators: seq<(string, string)>)
    requires operators != []
    ensures Names(operators) == {operators[0].0} + Names(operators[1..])
  {
    assert forall o :: o in operators <==> o == operators[0] || o in operators[1..];
  }

  lemma {:induction false} AssignedExactly(operators: seq<(string, string)>, name: string)
    ensures Assigned(operators, name).Some? <==> name in Names(operators)
  {
    if operators != [] {
      AssignedExactly(operators[1..], name);
      NamesUncons(operators);
    }
  }

  lemma VersionReplaced(key: string, version: string, newVersion: string)
    requires ':' !in key
    ensures WithVersion(VersionLine(key, version), newVersion) == VersionLine(key, newVersion)
  {
    var line := VersionLine(key, version);
    assert line[|key|] == ':' && line[..|key|] == key;
    assert forall i :: 0 <= i < |key| ==> line[i] == key[i];
    assert FirstColon(line) == |key|;
  }

  lemma PatchAppend(lines: seq<string>, line: string, operators: seq<(string, string)>)
    ensures PatchLines(lines + [line], operators) == PatchLine(PatchLines(lines, operators), line, operators)
  {
    assert (lines + [line])[..|lines|] == lines;
  }

  lemma ElementsOfSum(ops: seq<string>, more: seq<string>)
    ensures Elements(ops + more) == Elements(ops) + Elements(more)
  {
    assert forall op :: op in ops + more <==> op in ops || op in more;
  }

  lemma PatchOther(before: Patching, text: string, operators: seq<(string, string)>)
    requires before.version == [] && Quiet(text, Names(operators))
    ensures PatchLine(before, text, operators) == Patching(before.lines + [text], before.patchedOps, [])
  {
    FirstOperatorOf(text, operators);
  }

  lemma PatchSection(before: Patching, entry: Entry, operators: seq<(string, string)>)
    requires before.version == [] && entry.Product? && QuietBody(entry, Names(operators))
    ensures var after := PatchLine(
                           PatchLine(before, entry.head, operators), VersionLine(entry.key, entry.version), operators);
            && after.lines == before.lines + Lines(ByLine(entry, operators)) && after.version == []
            && Elements(after.patchedOps) == Elements(before.patchedOps) + Hit(entry, operators)
  {
    var line := VersionLine(entry.key, entry.version);
    FirstOperatorOf(line, operators);
    var first := FirstOperator(entry.head, operators);
    if first.Some? {
      ElementsOfSum(before.patchedOps, [first.value.0]);
      VersionReplaced(entry.key, entry.version, first.value.1);
    }
    var section := Lines(ByLine(entry, operators));
    assert section == [entry.head, section[1]];
    assert before.lines + [entry.head] + [section[1]] == before.lines + section;
  }

  lemma PatchEntry(lines: seq<string>, entry: Entry, operators: seq<(string, string)>)
    requires PatchLines(lines, operators).version == [] && QuietBody(entry, Names(operators))
    ensures var before, after := PatchLines(lines, operators), PatchLines(lines + Lines(entry), operators);
            && after.lines == before.lines + Lines(ByLine(entry, operators)) && after.version == []
            && Elements(after.patchedOps) == Elements(before.patchedOps) + Hit(entry, operators)
  {
    var before := PatchLines(lines, operators);
    match entry
    case Other(text) =>
      PatchAppend(lines, text, operators);
      PatchOther(before, text, operators);
    case Product(_, head, key, version) =>
      PatchAppend(lines, head, operators);
      PatchAppend(lines + [head], VersionLine(key, version), operators);
      assert lines + [head] + [VersionLine(key, version)] == lines + Lines(entry);
      PatchSection(before, entry, operators);
  }

  /** The first pass patches each section by what its line contains. */
  lemma {:induction false} FirstPass(doc: seq<Entry>, operators: seq<(string, string)>)
    requires forall k :: 0 <= k < |doc| ==> QuietBody(doc[k], Names(operators))
    ensures var after := PatchLines(Render(doc), operators);
            && after.lines == Render(Rewritten(doc, Never(), PatchingByLine(operators))) && after.version == []
            && Elements(after.patchedOps) == Met(doc, operators)
  {
    if doc != [] {
      hide ByLine, Lines, PatchLine, QuietBody, Names, Hit, PatchLines;
      var n := |doc| - 1;
      FirstPass(doc[..n], operators);
      PatchEntry(Render(doc[..n]), doc[n], operators);
      RenderAppend(Rewritten(doc[..n], Never(), PatchingByLine(operators)), ByLine(doc[n], operators));
    } else {
      assert Elements([]) == {};
    }
  }

  lemma RenderAppend(doc: seq<Entry>, entry: Entry)
    ensures Render(doc + [entry]) == Render(doc) + Lines(entry)
  {
    assert (doc + [entry])[..|doc|] == doc;
  }

  // ---------------------------------------------------------------- the second pass

  lemma {:induction false} FirstSkippedOf(line: string, skipOps: seq<string>)
    ensures FirstSkipped(line, skipOps).None? <==> Quiet(line, Elements(skipOps))
    ensures FirstSkipped(line, skipOps).Some? ==>
              FirstSkipped(line, skipOps).value in skipOps && Contains(line, FirstSkipped(line, skipOps).value)
  {
    if skipOps != [] {
      FirstSkippedOf(line, skipOps[1..]);
      assert forall op :: op in skipOps <==> op == skipOps[0] || op in skipOps[1..];
    }
  }

  lemma SkipAppend(lines: seq<string>, line: string, skipOps: seq<string>)
    ensures SkipLines(lines + [line], skipOps) == SkipLine(SkipLines(lines, skipOps), line, skipOps)
  {
    assert (lines + [line])[..|lines|] == lines;
  }

  lemma SkipEntry(lines: seq<string>, entry: Entry, skipOps: seq<string>)
    requires SkipLines(lines, skipOps).skipLines == 0 && QuietBody(entry, Elements(skipOps))
    ensures var before, after := SkipLines(lines, skipOps), SkipLines(lines + Lines(entry), skipOps);
            && after.lines == before.lines + (if SkippedByLine(entry, skipOps) then [] else Lines(entry))
            && after.skipLines == 0
            && Elements(after.validSkipOps) == Elements(before.validSkipOps) + SkipHit(entry, skipOps)
  {
    var before := SkipLines(lines, skipOps);
    match entry
    case Other(text) =>
      SkipAppend(lines, text, skipOps);
      FirstSkippedOf(text, skipOps);
    case Product(_, head, key, version) =>
      var line := VersionLine(key, version);
      SkipAppend(lines, head, skipOps);
      SkipAppend(lines + [head], line, skipOps);
      assert lines + [head] + [line] == lines + Lines(entry);
      FirstSkippedOf(line, skipOps);
      if SkippedByLine(entry, skipOps) {
        ElementsOfSum(before.validSkipOps, [FirstSkipped(head, skipOps).value]);
      } else {
        assert before.lines + [head] + [line] == before.lines + Lines(entry);
      }
  }

  /** The second pass drops each section by what its line contains. */
  lemma {:induction false} SecondPass(doc: seq<Entry>, skipOps: seq<string>)
    requires forall k :: 0 <= k < |doc| ==> QuietBody(doc[k], Elements(skipOps))
    ensures var after := SkipLines(Render(doc), skipOps);
            && after.lines == Render(Rewritten(doc, SkippingByLine(skipOps), Same())) && after.skipLines == 0
            && Elements(after.validSkipOps) == SkipsMet(doc, skipOps)
  {
    if doc != [] {
      hide Lines, SkipLine, QuietBody, SkipHit, SkipLines, SkippedByLine;
      var n := |doc| - 1;
      SecondPass(doc[..n], skipOps);
      SkipEntry(Render(doc[..n]), doc[n], skipOps);
      var before := Rewritten(doc[..n], SkippingByLine(skipOps), Same());
      if SkippedByLine(doc[n], skipOps) {
        assert before + [] == before && Render(before) + [] == Render(before);
      } else {
        RenderAppend(before, doc[n]);
      }
    } else {
      assert Elements([]) == {};
    }
  }

  // ---------------------------------------------------------------- when two rewritings print alike

  ghost predicate KeepsShape(entry: Entry, changed: Entry) {
    match entry
    case Other(_) => changed == entry
    case Product(name, head, key, _) =>
      changed.Product? && changed.name == name && changed.head == head && changed.key == key
  }

  /** A way of rewriting that drops only sections and changes only their versions. */
  ghost predicate Tame(doc: seq<Entry>, dropped: Entry -> bool, change: Entry -> Entry) {
    forall k :: 0 <= k < |doc| ==> (dropped(doc[k]) ==> doc[k].Product?) && KeepsShape(doc[k], change(doc[k]))
  }

  /** The two agree on an entry, if either keeps it. */
  ghost predicate Agree(
    entry: Entry, dropped: Entry -> bool, change: Entry -> Entry, dropped': Entry -> bool, change': Entry -> Entry)
  {
    dropped(entry) == dropped'(entry) && (!dropped(entry) ==> change(entry) == change'(entry))
  }

  lemma {:induction false} AgreeingRewrites(
    doc: seq<Entry>, dropped: Entry -> bool, change: Entry -> Entry, dropped': Entry -> bool, change': Entry -> Entry)
    requires forall k :: 0 <= k < |doc| ==> Agree(doc[k], dropped, change, dropped', change')
    ensures Rewritten(doc, dropped, change) == Rewritten(doc, dropped', change')
  {
    if doc != [] {
      AgreeingRewrites(doc[..|doc| - 1], dropped, change, dropped', change');
    }
  }

  lemma RenderLast(doc: seq<Entry>, dropped: Entry -> bool, change: Entry -> Entry)
    requires doc != []
    ensures var n := |doc| - 1;
            Render(Rewritten(doc, dropped, change))
            == Render(Rewritten(doc[..n], dropped, change)) + if dropped(doc[n]) then [] else Lines(change(doc[n]))
  {
    var n := |doc| - 1;
    var before := Rewritten(doc[..n], dropped, change);
    if dropped(doc[n]) {
      assert before + [] == before && Render(before) + [] == Render(before);
    } else {
      RenderAppend(before, change(doc[n]));
    }
  }

  lemma TameBefore(doc: seq<Entry>, dropped: Entry -> bool, change: Entry -> Entry)
    requires doc != [] && Tame(doc, dropped, change)
    ensures Tame(doc[..|doc| - 1], dropped, change)
  {
  }

  /** Whatever is kept introduces its product in the output. */
  lemma {:induction false} KeptHead(doc: seq<Entry>, dropped: Entry -> bool, change: Entry -> Entry, k: nat)
    requires Tame(doc, dropped, change) && k < |doc| && doc[k].Product? && !dropped(doc[k])
    ensures doc[k].head in Render(Rewritten(doc, dropped, change))
  {
    var n := |doc| - 1;
    RenderLast(doc, dropped, change);
    if k == n {
      assert Lines(change(doc[k]))[0] == doc[k].head;
    } else {
      TameBefore(doc, dropped, change);
      KeptHead(doc[..n], dropped, change, k);
    }
  }

  function LineCount(doc: seq<Entry>, dropped: Entry -> bool): nat {
    if doc == [] then 0
    else
      var last := doc[|doc| - 1];
      LineCount(doc[..|doc| - 1], dropped) + if dropped(last) then 0 else if last.Product? then 2 else 1
  }

  lemma {:induction false} CountLines(doc: seq<Entry>, dropped: Entry -> bool, change: Entry -> Entry)
    requires Tame(doc, dropped, change)
    ensures |Render(Rewritten(doc, dropped, change))| == LineCount(doc, dropped)
  {
    if doc != [] {
      hide Render, Rewritten;
      var n := |doc| - 1;
      assert KeepsShape(doc[n], change(doc[n]));
      RenderLast(doc, dropped, change);
      TameBefore(doc, dropped, change);
      CountLines(doc[..n], dropped, change);
    }
  }

  lemma {:induction false} FewerDropped(doc: seq<Entry>, dropped: Entry -> bool, dropped': Entry -> bool)
    requires forall k :: 0 <= k < |doc| && dropped(doc[k]) ==> dropped'(doc[k])
    ensures LineCount(doc, dropped') <= LineCount(doc, dropped)
  {
    if doc != [] {
      FewerDropped(doc[..|doc| - 1], dropped, dropped');
    }
  }

  /** Dropping fewer sections leaves more lines. */
  lemma {:induction false} MoreLines(doc: seq<Entry>, dropped: Entry -> bool, dropped': Entry -> bool, k: nat)
    requires forall i :: 0 <= i < |doc| && dropped(doc[i]) ==> dropped'(doc[i])
    requires k < |doc| && dropped'(doc[k]) && !dropped(doc[k])
    ensures LineCount(doc, dropped') < LineCount(doc, dropped)
  {
    var n := |doc| - 1;
    if k < n {
      MoreLines(doc[..n], dropped, dropped', k);
    } else {
      FewerDropped(doc[..n], dropped, dropped');
    }
  }

  lemma SameLinesSameEntry(entry: Entry, changed: Entry, changed': Entry)
    requires KeepsShape(entry, changed) && KeepsShape(entry, changed') && Lines(changed) == Lines(changed')
    ensures changed == changed'
  {
    if entry.Product? {
      assert Lines(changed)[1] == Lines(changed')[1];
      assert Lines(changed)[1][|entry.key| + 2..] == changed.version;
      assert Lines(changed')[1][|entry.key| + 2..] == changed'.version;
    }
  }

  lemma SameShapeSameLength(entry: Entry, changed: Entry, changed': Entry)
    requires KeepsShape(entry, changed) && KeepsShape(entry, changed')
    ensures |Lines(changed)| == |Lines(changed')|
  {
  }

  lemma {:induction false} SameLinesAgree(
    doc: seq<Entry>, dropped: Entry -> bool, change: Entry -> Entry, dropped': Entry -> bool, change': Entry -> Entry,
    k: nat)
    requires Tame(doc, dropped, change) && Tame(doc, dropped', change') && k < |doc|
    requires forall i :: 0 <= i < |doc| ==> dropped(doc[i]) == dropped'(doc[i])
    requires Render(Rewritten(doc, dropped, change)) == Render(Rewritten(doc, dropped', change'))
    ensures Agree(doc[k], dropped, change, dropped', change')
  {
    hide Render, Rewritten, Lines, KeepsShape;
    var n := |doc| - 1;
    RenderLast(doc, dropped, change);
    RenderLast(doc, dropped', change');
    assert KeepsShape(doc[n], change(doc[n])) && KeepsShape(doc[n], change'(doc[n]));
    SameShapeSameLength(doc[n], change(doc[n]), change'(doc[n]));
    SplitAlike(
      Render(Rewritten(doc[..n], dropped, change)), if dropped(doc[n]) then [] else Lines(change(doc[n])),
      Render(Rewritten(doc[..n], dropped', change')), if dropped(doc[n]) then [] else Lines(change'(doc[n])));
    if k < n {
      TameBefore(doc, dropped, change);
      TameBefore(doc, dropped', change');
      SameLinesAgree(doc[..n], dropped, change, dropped', change', k);
    } else if !dropped(doc[n]) {
      SameLinesSameEntry(doc[n], change(doc[n]), change'(doc[n]));
    }
  }

  lemma SplitAlike<T>(a: seq<T>, b: seq<T>, a': seq<T>, b': seq<T>)
    requires a + b == a' + b' && |b| == |b'|
    ensures a == a' && b == b'
  {
    assert |a| == |a'|;
    assert a == (a + b)[..|a|] && a' == (a' + b')[..|a'|];
    assert b == (a + b)[|a|..] && b' == (a' + b')[|a'|..];
  }

  /** The first way of rewriting drops a section exactly if one of `marks` occurs in its line, and no mark is left. */
  ghost predicate DropsMarked(doc: seq<Entry>, dropped: Entry -> bool, change: Entry -> Entry, marks: set<string>) {
    forall k :: 0 <= k < |doc| ==>
      && (dropped(doc[k]) <==> doc[k].Product? && !Quiet(doc[k].head, marks))
      && QuietBody(change(doc[k]), marks)
  }

  lemma DropsMarkedBefore(doc: seq<Entry>, dropped: Entry -> bool, change: Entry -> Entry, marks: set<string>)
    requires doc != [] && DropsMarked(doc, dropped, change, marks)
    ensures DropsMarked(doc[..|doc| - 1], dropped, change, marks)
  {
    hide Quiet, QuietBody;
  }

  lemma KeptIsQuiet(doc: seq<Entry>, dropped: Entry -> bool, change: Entry -> Entry, marks: set<string>, line: string)
    requires doc != [] && Tame(doc, dropped, change) && DropsMarked(doc, dropped, change, marks)
    requires var last := doc[|doc| - 1]; !dropped(last) && line in Lines(change(last))
    ensures Quiet(line, marks)
  {
    hide Quiet;
    var last := doc[|doc| - 1];
    assert KeepsShape(last, change(last)) && QuietBody(change(last), marks);
  }

  lemma {:induction false} NoMarkLeft(
    doc: seq<Entry>, dropped: Entry -> bool, change: Entry -> Entry, marks: set<string>, line: string)
    requires Tame(doc, dropped, change) && DropsMarked(doc, dropped, change, marks)
    requires line in Render(Rewritten(doc, dropped, change))
    ensures Quiet(line, marks)
  {
    if doc != [] {
      hide Render, Rewritten, Tame, DropsMarked, Quiet, Lines;
      var n := |doc| - 1;
      RenderLast(doc, dropped, change);
      TameBefore(doc, dropped, change);
      DropsMarkedBefore(doc, dropped, change, marks);
      if line in Render(Rewritten(doc[..n], dropped, change)) {
        NoMarkLeft(doc[..n], dropped, change, marks, line);
      } else {
        KeptIsQuiet(doc, dropped, change, marks, line);
      }
    }
  }

  /** Two rewritings print the same lines if and only if they agree on every entry. */
  lemma PrintAlikeExactly(
    doc: seq<Entry>, dropped: Entry -> bool, change: Entry -> Entry, marks: set<string>,
    dropped': Entry -> bool, change': Entry -> Entry)
    requires Tame(doc, dropped, change) && Tame(doc, dropped', change') && DropsMarked(doc, dropped, change, marks)
    ensures Render(Rewritten(doc, dropped, change)) == Render(Rewritten(doc, dropped', change'))
            <==> forall k :: 0 <= k < |doc| ==> Agree(doc[k], dropped, change, dropped', change')
  {
    var lines, lines' := Render(Rewritten(doc, dropped, change)), Render(Rewritten(doc, dropped', change'));
    if forall k :: 0 <= k < |doc| ==> Agree(doc[k], dropped, change, dropped', change') {
      AgreeingRewrites(doc, dropped, change, dropped', change');
    }
    if lines == lines' {
      forall k | 0 <= k < |doc| && dropped(doc[k]) ensures dropped'(doc[k]) {
        if !dropped'(doc[k]) {
          KeptHead(doc, dropped', change', k);
          NoMarkLeft(doc, dropped, change, marks, doc[k].head);
        }
      }
      CountLines(doc, dropped, change);
      CountLines(doc, dropped', change');
      forall k | 0 <= k < |doc| ensures dropped(doc[k]) == dropped'(doc[k]) {
        if dropped'(doc[k]) && !dropped(doc[k]) {
          MoreLines(doc, dropped, dropped', k);
        }
      }
      forall k | 0 <= k < |doc| ensures Agree(doc[k], dropped, change, dropped', change') {
        SameLinesAgree(doc, dropped, change, dropped', change', k);
      }
    }
  }

  lemma RewritingsTame(doc: seq<Entry>, operators: seq<(string, string)>, skipOps: seq<string>)
    ensures Tame(doc, SkippingByLine(skipOps), PatchingByLine(operators))
    ensures Tame(doc, SkippingByName(skipOps), PatchingByName(operators))
    ensures Tame(doc, Never(), PatchingByLine(operators)) && Tame(doc, Never(), PatchingByName(operators))
    ensures Tame(doc, SkippingByLine(skipOps), Same()) && Tame(doc, SkippingByName(skipOps), Same())
  {
    hide FirstOperator, FirstSkipped, Assigned;
  }

  // ---------------------------------------------------------------- exactly when the rewriting is the one asked for

  /** On a file whose names occur in product lines only: the first pass does what is asked for if and only if the first
   operator occurring in each product's line brings the version its own name is given. */
  lemma FirstPassExactly(doc: seq<Entry>, operators: seq<(string, string)>)
    requires forall k :: 0 <= k < |doc| ==> QuietBody(doc[k], Names(operators))
    ensures PatchLines(Render(doc), operators).lines == Render(Rewritten(doc, Never(), PatchingByName(operators)))
            <==> forall k :: 0 <= k < |doc| ==> ByLine(doc[k], operators) == Override(doc[k], operators)
  {
    FirstPass(doc, operators);
    RewritingsTame(doc, operators, []);
    hide PatchLines, Names, Rewritten, Render, Assigned, FirstOperator, Tame;
    PrintAlikeExactly(doc, Never(), PatchingByLine(operators), {}, Never(), PatchingByName(operators));
    assert forall k :: 0 <= k < |doc| ==>
      (Agree(doc[k], Never(), PatchingByLine(operators), Never(), PatchingByName(operators))
       <==> ByLine(doc[k], operators) == Override(doc[k], operators));
  }

  /** The second pass does what is asked for if and only if skipped names occur in exactly their own products' lines. */
  lemma SecondPassExactly(doc: seq<Entry>, skipOps: seq<string>)
    requires forall k :: 0 <= k < |doc| ==> QuietBody(doc[k], Elements(skipOps))
    ensures SkipLines(Render(doc), skipOps).lines == Render(Rewritten(doc, SkippingByName(skipOps), Same()))
            <==> forall k :: 0 <= k < |doc| ==> SkippedByLine(doc[k], skipOps) == Skipped(doc[k], skipOps)
  {
    SecondPass(doc, skipOps);
    SkippedIfMarked(doc, Same(), skipOps);
    RewritingsTame(doc, [], skipOps);
    hide *;
    PrintAlikeExactly(
      doc, SkippingByLine(skipOps), Same(), Elements(skipOps), SkippingByName(skipOps), Same());
    SkipsAgree(doc, skipOps);
  }

  lemma SkipsAgree(doc: seq<Entry>, skipOps: seq<string>)
    ensures (forall k :: 0 <= k < |doc| ==>
               Agree(doc[k], SkippingByLine(skipOps), Same(), SkippingByName(skipOps), Same()))
            <==> forall k :: 0 <= k < |doc| ==> SkippedByLine(doc[k], skipOps) == Skipped(doc[k], skipOps)
  {
    forall k | 0 <= k < |doc|
      ensures Agree(doc[k], SkippingByLine(skipOps), Same(), SkippingByName(skipOps), Same())
              <==> SkippedByLine(doc[k], skipOps) == Skipped(doc[k], skipOps)
    {
    }
  }

  lemma SkippedIfMarked(doc: seq<Entry>, change: Entry -> Entry, skipOps: seq<string>)
    requires forall k :: 0 <= k < |doc| ==> QuietBody(change(doc[k]), Elements(skipOps))
    ensures DropsMarked(doc, SkippingByLine(skipOps), change, Elements(skipOps))
  {
    forall k | 0 <= k < |doc| && doc[k].Product?
      ensures SkippedByLine(doc[k], skipOps) <==> !Quiet(doc[k].head, Elements(skipOps))
    {
      FirstSkippedOf(doc[k].head, skipOps);
    }
  }

  /** Both passes and both checks, on the product lines alone. */
  ghost predicate OnTarget(doc: seq<Entry>, operators: seq<(string, string)>, skipOps: seq<string>) {
    && Names(operators) - Met(doc, operators) == Names(operators) - Products(doc)
    && (Names(operators) <= Products(doc) ==>
          && Elements(skipOps) - SkipsMet(doc, skipOps) == Elements(skipOps) - Products(doc)
          && (Elements(skipOps) <= Products(doc) ==>
                forall k :: 0 <= k < |doc| ==>
                  && SkippedByLine(doc[k], skipOps) == Skipped(doc[k], skipOps)
                  && (!Skipped(doc[k], skipOps) ==> ByLine(doc[k], operators) == Override(doc[k], operators))))
  }

  lemma SameHead(entry: Entry, operators: seq<(string, string)>, skipOps: seq<string>)
    ensures SkipHit(ByLine(entry, operators), skipOps) == SkipHit(entry, skipOps)
    ensures SkippedByLine(ByLine(entry, operators), skipOps) == SkippedByLine(entry, skipOps)
  {
  }

  lemma {:induction false} PatchedShape(doc: seq<Entry>, operators: seq<(string, string)>, skipOps: seq<string>)
    ensures var patched := Rewritten(doc, Never(), PatchingByLine(operators));
            && |patched| == |doc| && (forall k :: 0 <= k < |doc| ==> patched[k] == ByLine(doc[k], operators))
            && SkipsMet(patched, skipOps) == SkipsMet(doc, skipOps)
            && Rewritten(patched, SkippingByLine(skipOps), Same())
               == Rewritten(doc, SkippingByLine(skipOps), PatchingByLine(operators))
  {
    if doc != [] {
      hide ByLine, SkipHit, SkippedByLine;
      var n := |doc| - 1;
      SameHead(doc[n], operators, skipOps);
      PatchedShape(doc[..n], operators, skipOps);
      var before := Rewritten(doc[..n], Never(), PatchingByLine(operators));
      assert (before + [ByLine(doc[n], operators)])[..n] == before;
    }
  }

  /** What the two passes do, told by what the product lines contain. */
  lemma RewritingByLine(doc: seq<Entry>, operators: seq<(string, string)>, skipOps: seq<string>)
    requires QuietBodies(doc, operators, skipOps)
    ensures Patched(Render(doc), operators, skipOps) ==
              if Names(operators) - Met(doc, operators) != {}
              then Err(NotPatched(Names(operators) - Met(doc, operators)))
              else if Elements(skipOps) - SkipsMet(doc, skipOps) != {}
              then Err(NotSkipped(Elements(skipOps) - SkipsMet(doc, skipOps)))
              else Ok(Render(Rewritten(doc, SkippingByLine(skipOps), PatchingByLine(operators))))
  {
    hide PatchLines, SkipLines, Rewritten, Render, Met, SkipsMet, Names, Elements, QuietBody, ByLine;
    FirstPass(doc, operators);
    PatchedShape(doc, operators, skipOps);
    SecondPass(Rewritten(doc, Never(), PatchingByLine(operators)), skipOps);
  }

  /** The rewriting gives what is asked for, lines and errors alike, if and only if it is on target. */
  lemma RewritingExactly(doc: seq<Entry>, operators: seq<(string, string)>, skipOps: seq<string>)
    requires QuietBodies(doc, operators, skipOps)
    ensures Patched(Render(doc), operators, skipOps) == Asked(doc, operators, skipOps)
            <==> OnTarget(doc, operators, skipOps)
  {
    RewritingByLine(doc, operators, skipOps);
    SkippedIfMarked(doc, PatchingByLine(operators), skipOps);
    RewritingsTame(doc, operators, skipOps);
    hide *;
    PrintAlikeExactly(
      doc, SkippingByLine(skipOps), PatchingByLine(operators), Elements(skipOps),
      SkippingByName(skipOps), PatchingByName(operators));
    TargetsAgree(doc, operators, skipOps);
    CompareResults(doc, operators, skipOps);
  }

  lemma CompareResults(doc: seq<Entry>, operators: seq<(string, string)>, skipOps: seq<string>)
    ensures var done := Render(Rewritten(doc, SkippingByLine(skipOps), PatchingByLine(operators)));
            var asked := Render(Rewritten(doc, SkippingByName(skipOps), PatchingByName(operators)));
            (if Names(operators) - Met(doc, operators) != {}
             then Err(NotPatched(Names(operators) - Met(doc, operators)))
             else if Elements(skipOps) - SkipsMet(doc, skipOps) != {}
             then Err(NotSkipped(Elements(skipOps) - SkipsMet(doc, skipOps)))
             else Ok(done)) == Asked(doc, operators, skipOps)
            <==> && Names(operators) - Met(doc, operators) == Names(operators) - Products(doc)
                 && (Names(operators) <= Products(doc) ==>
                       && Elements(skipOps) - SkipsMet(doc, skipOps) == Elements(skipOps) - Products(doc)
                       && (Elements(skipOps) <= Products(doc) ==> done == asked))
  {
    hide Render, Rewritten, Met, SkipsMet, Products, Names, Elements;
    SubsetExactly(Names(operators), Products(doc));
    SubsetExactly(Elements(skipOps), Products(doc));
  }

  lemma SubsetExactly<T>(a: set<T>, b: set<T>)
    ensures a <= b <==> a - b == {}
  {
    assert forall x :: x in a ==> x in b || x in a - b;
  }

  lemma TargetsAgree(doc: seq<Entry>, operators: seq<(string, string)>, skipOps: seq<string>)
    ensures (forall k :: 0 <= k < |doc| ==>
               Agree(doc[k], SkippingByLine(skipOps), PatchingByLine(operators),
                     SkippingByName(skipOps), PatchingByName(operators)))
            <==> forall k :: 0 <= k < |doc| ==>
                   && SkippedByLine(doc[k], skipOps) == Skipped(doc[k], skipOps)
                   && (!Skipped(doc[k], skipOps) ==> ByLine(doc[k], operators) == Override(doc[k], operators))
  {
    forall k | 0 <= k < |doc|
      ensures Agree(doc[k], SkippingByLine(skipOps), PatchingByLine(operators),
                    SkippingByName(skipOps), PatchingByName(operators))
              <==> && SkippedByLine(doc[k], skipOps) == Skipped(doc[k], skipOps)
                   && (!Skipped(doc[k], skipOps) ==> ByLine(doc[k], operators) == Override(doc[k], operators))
    {
    }
  }

  // ---------------------------------------------------------------- unambiguous files

  /** Of the names, a product's line contains exactly the product's own. */
  ghost predicate Tells(head: string, product: string, names: set<string>) {
    forall name :: name in names ==> (Contains(head, name) <==> name == product)
  }

  ghost predicate Clear(entry: Entry, names: set<string>) {
    QuietBody(entry, names) && (entry.Product? ==> Tells(entry.head, entry.name, names))
  }

  /** No operator name occurs by accident, neither in the file nor in the versions put into it. */
  ghost predicate Unambiguous(doc: seq<Entry>, operators: seq<(string, string)>, skipOps: seq<string>) {
    forall k :: 0 <= k < |doc| ==>
      Clear(doc[k], Names(operators)) && Clear(Override(doc[k], operators), Elements(skipOps))
  }

  lemma TellsFirst(head: string, product: string, operators: seq<(string, string)>)
    requires Tells(head, product, Names(operators))
    ensures Given(FirstOperator(head, operators)) == Assigned(operators, product)
    ensures FirstOperator(head, operators).Some? ==> FirstOperator(head, operators).value.0 == product
  {
    FirstOperatorOf(head, operators);
    AssignedExactly(operators, product);
  }

  lemma TellsSkipped(head: string, product: string, skipOps: seq<string>)
    requires Tells(head, product, Elements(skipOps))
    ensures FirstSkipped(head, skipOps) == if product in skipOps then Some(product) else None
  {
    FirstSkippedOf(head, skipOps);
  }

  lemma ClearEntry(entry: Entry, operators: seq<(string, string)>, skipOps: seq<string>)
    requires Clear(entry, Names(operators)) && Clear(Override(entry, operators), Elements(skipOps))
    ensures ByLine(entry, operators) == Override(entry, operators)
    ensures SkippedByLine(entry, skipOps) == Skipped(entry, skipOps)
    ensures Hit(entry, operators) == if entry.Product? then Names(operators) * {entry.name} else {}
    ensures SkipHit(entry, skipOps) == if entry.Product? then Elements(skipOps) * {entry.name} else {}
  {
    if entry.Product? {
      TellsFirst(entry.head, entry.name, operators);
      TellsSkipped(entry.head, entry.name, skipOps);
      AssignedExactly(operators, entry.name);
    }
  }

  lemma ProductsOfLast(doc: seq<Entry>)
    requires doc != []
    ensures var last := doc[|doc| - 1];
            Products(doc) == Products(doc[..|doc| - 1]) + if last.Product? then {last.name} else {}
  {
    var n := |doc| - 1;
    forall k | 0 <= k < n && doc[k].Product? ensures doc[k].name in Products(doc[..n]) {
      assert doc[..n][k] == doc[k];
    }
  }

  lemma {:induction false} MetOnUnambiguous(doc: seq<Entry>, operators: seq<(string, string)>, skipOps: seq<string>)
    requires Unambiguous(doc, operators, skipOps)
    ensures Met(doc, operators) == Names(operators) * Products(doc)
    ensures SkipsMet(doc, skipOps) == Elements(skipOps) * Products(doc)
  {
    if doc != [] {
      hide Names, Elements, Products, Hit, SkipHit, Clear, Override;
      var n := |doc| - 1;
      MetOnUnambiguous(doc[..n], operators, skipOps);
      ProductsOfLast(doc);
      ClearEntry(doc[n], operators, skipOps);
    }
  }

  /** Unambiguous files are on target: the rewriting fails if and only if a named operator has no section, and
   otherwise overrides and drops exactly the named sections. */
  lemma RewritingIsAnUpdate(doc: seq<Entry>, operators: seq<(string, string)>, skipOps: seq<string>)
    requires Unambiguous(doc, operators, skipOps)
    ensures Patched(Render(doc), operators, skipOps) == Asked(doc, operators, skipOps)
  {
    forall k | 0 <= k < |doc|
      ensures ByLine(doc[k], operators) == Override(doc[k], operators)
      ensures SkippedByLine(doc[k], skipOps) == Skipped(doc[k], skipOps)
    {
      ClearEntry(doc[k], operators, skipOps);
    }
    MetOnUnambiguous(doc, operators, skipOps);
    RewritingExactly(doc, operators, skipOps);
  }

  // ---------------------------------------------------------------- ambiguous files

  /** A name that occurs in another product's line patches that product as well. */
  lemma AccidentalNamePatchesToo(doc: seq<Entry>, k: nat, op: string, version: string)
    requires k < |doc| && doc[k].Product? && Contains(doc[k].head, op) && op != doc[k].name
    requires version != [] && version != doc[k].version
    requires forall i :: 0 <= i < |doc| ==> QuietBody(doc[i], Names([(op, version)]))
    ensures PatchLines(Render(doc), [(op, version)]).lines
            != Render(Rewritten(doc, Never(), PatchingByName([(op, version)])))
  {
    var operators := [(op, version)];
    FirstPassExactly(doc, operators);
    assert operators[1..] == [] && FirstOperator(doc[k].head, operators) == Some((op, version));
    assert Assigned(operators, doc[k].name) == None;
  }

  /** Two products, `ab` and `b`: asking for another version of `b` does not give what was asked for. */
  lemma AmbiguousFile()
    ensures var doc := [Product(['a', 'b'], ['a', 'b'], ['v'], ['1']), Product(['b'], ['b'], ['v'], ['1'])];
            var operators := [(['b'], ['2'])];
            PatchLines(Render(doc), operators).lines != Render(Rewritten(doc, Never(), PatchingByName(operators)))
  {
    var ab, b := Product(['a', 'b'], ['a', 'b'], ['v'], ['1']), Product(['b'], ['b'], ['v'], ['1']);
    var operators: seq<(string, string)> := [(['b'], ['2'])];
    NamesUncons(operators);
    assert operators[1..] == [] && Names(operators[1..]) == {};
    OccursAt(ab.head, ['b'], 1);
    AbsentChar(VersionLine(['v'], ['1']), 'b');
    assert QuietBody(ab, Names(operators)) && QuietBody(b, Names(operators));
    hide Names, QuietBody, PatchLines, Render, Rewritten;
    AccidentalNamePatchesToo([ab, b], 0, ['b'], ['2']);
  }

  lemma OccursAt(line: string, part: string, i: nat)
    requires i <= |line| && line[i..] == part
    ensures Contains(line, part)
  {
  }

  lemma AbsentChar(line: string, c: char)
    requires c !in line
    ensures !Contains(line, [c])
  {
    assert forall i :: 0 <= i < |line| ==> line[i..][0] != c;
  }
}
