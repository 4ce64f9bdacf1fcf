/**
 A release file as a map from products to versions (scripts/run-tests): reading the lines that the rewriting leaves
 gives the update of the map read from the original lines.
 */
module ReleaseVersions {
  import opened Wrappers
  import opened ReleaseFile
  import opened ReleaseDocuments

  /** The versions a document gives, by product. */
  function Versions(doc: seq<Entry>): map<string, string> {
    if doc == [] then map[]
    else
      var before := Versions(doc[..|doc| - 1]);
      match doc[|doc| - 1]
      case Other(_) => before
      case Product(name, _, _, version) => before[name := version]
  }

  /** How product names and versions are laid out: indented names ending in a colon, and one key for versions. */
  datatype Layout = Layout(indent: string, key: string)

  function Head(layout: Layout, name: string): string {
    layout.indent + name + [':']
  }

  predicate IsVersionLine(layout: Layout, line: string) {
    layout.key + [':', ' '] <= line
  }

  function NameIn(layout: Layout, head: string): string {
    if |head| > |layout.indent| then head[|layout.indent|..|head| - 1] else []
  }

  /** Reads the lines of a file: each version line belongs to the product named in the line before it. */
  function ReadVersions(layout: Layout, lines: seq<string>): map<string, string> {
    if |lines| < 2 then map[]
    else
      var n := |lines| - 1;
      if IsVersionLine(layout, lines[n])
      then ReadVersions(layout, lines[..n - 1])[NameIn(layout, lines[n - 1]) := lines[n][|layout.key| + 2..]]
      else ReadVersions(layout, lines[..n])
  }

  ghost predicate LaidOut(doc: seq<Entry>, layout: Layout) {
    forall k :: 0 <= k < |doc| ==>
      match doc[k]
      case Other(text) => !IsVersionLine(layout, text)
      case Product(name, head, key, _) => head == Head(layout, name) && key == layout.key
  }

  lemma ReadSection(layout: Layout, lines: seq<string>, name: string, version: string)
    ensures ReadVersions(layout, lines + [Head(layout, name), VersionLine(layout.key, version)])
            == ReadVersions(layout, lines)[name := version]
  {
    var head, line := Head(layout, name), VersionLine(layout.key, version);
    var all := lines + [head, line];
    assert all[..|all| - 2] == lines && all[|all| - 2] == head && all[|all| - 1] == line;
    assert NameIn(layout, head) == name && line[|layout.key| + 2..] == version;
  }

  lemma ReadOther(layout: Layout, lines: seq<string>, text: string)
    requires !IsVersionLine(layout, text)
    ensures ReadVersions(layout, lines + [text]) == ReadVersions(layout, lines)
  {
    assert (lines + [text])[..|lines|] == lines;
  }

  /** Reading a rendered document gives its versions. */
  lemma {:induction false} ReadsBack(doc: seq<Entry>, layout: Layout)
    requires LaidOut(doc, layout)
    ensures ReadVersions(layout, Render(doc)) == Versions(doc)
  {
    if doc != [] {
      var n := |doc| - 1;
      ReadsBack(doc[..n], layout);
      match doc[n]
      case Other(text) => ReadOther(layout, Render(doc[..n]), text);
      case Product(name, _, _, version) => ReadSection(layout, Render(doc[..n]), name, version);
    }
  }

  function NewVersion(name: string, version: string, operators: seq<(string, string)>): string {
    var given := Assigned(operators, name).GetOr([]);
    if given == [] then version else given
  }

  /** The given non-empty versions overriding, and the skipped products removed. */
  function UpdatedVersions(
    versions: map<string, string>, operators: seq<(string, string)>, skipOps: seq<string>): map<string, string>
  {
    map name | name in versions && name !in skipOps :: NewVersion(name, versions[name], operators)
  }

  lemma UpdateLast(
    versions: map<string, string>, name: string, version: string,
    operators: seq<(string, string)>, skipOps: seq<string>)
    ensures UpdatedVersions(versions[name := version], operators, skipOps) ==
              if name in skipOps then UpdatedVersions(versions, operators, skipOps)
              else UpdatedVersions(versions, operators, skipOps)[name := NewVersion(name, version, operators)]
  {
  }

  lemma VersionsLast(doc: seq<Entry>, last: Entry)
    ensures Versions(doc + [last]) == if last.Product? then Versions(doc)[last.name := last.version] else Versions(doc)
  {
    assert (doc + [last])[..|doc|] == doc;
  }

  lemma {:induction false} VersionsUpdated(doc: seq<Entry>, operators: seq<(string, string)>, skipOps: seq<string>)
    ensures Versions(Rewritten(doc, SkippingByName(skipOps), PatchingByName(operators)))
            == UpdatedVersions(Versions(doc), operators, skipOps)
  {
    if doc != [] {
      var n := |doc| - 1;
      VersionsUpdated(doc[..n], operators, skipOps);
      assert doc == doc[..n] + [doc[n]];
      VersionsLast(doc[..n], doc[n]);
      var before := Rewritten(doc[..n], SkippingByName(skipOps), PatchingByName(operators));
      assert before + [] == before;
      VersionsLast(before, Override(doc[n], operators));
      if doc[n].Product? {
        UpdateLast(Versions(doc[..n]), doc[n].name, doc[n].version, operators, skipOps);
      }
    }
  }

  lemma {:induction false} StaysLaidOut(
    doc: seq<Entry>, layout: Layout, operators: seq<(string, string)>, skipOps: seq<string>)
    requires LaidOut(doc, layout)
    ensures LaidOut(Rewritten(doc, SkippingByName(skipOps), PatchingByName(operators)), layout)
  {
    if doc != [] {
      StaysLaidOut(doc[..|doc| - 1], layout, operators, skipOps);
    }
  }

  lemma {:induction false} ProductsAreKeys(doc: seq<Entry>)
    ensures Versions(doc).Keys == Products(doc)
  {
    if doc != [] {
      ProductsAreKeys(doc[..|doc| - 1]);
      ProductsOfLast(doc);
    }
  }

  /** Read as maps from products to versions, the rewritten file is the update of the original one, and rewriting fails
   if and only if a named operator is not in that map. */
  lemma RewrittenFileReads(
    doc: seq<Entry>, layout: Layout, operators: seq<(string, string)>, skipOps: seq<string>)
    requires Unambiguous(doc, operators, skipOps) && LaidOut(doc, layout)
    ensures var versions := ReadVersions(layout, Render(doc));
            var result := Patched(Render(doc), operators, skipOps);
            && (result.Ok? <==> Names(operators) + Elements(skipOps) <= versions.Keys)
            && (result.Ok? ==> ReadVersions(layout, result.value) == UpdatedVersions(versions, operators, skipOps))
            && (result.Err? && (exists o :: o in operators && o.0 !in versions) ==>
                  && result.error.NotPatched?
                  && forall name :: name in result.error.operators
                                    <==> name !in versions && exists o :: o in operators && o.0 == name)
            && (result.Err? && (forall o :: o in operators ==> o.0 in versions) ==>
                  && result.error.NotSkipped?
                  && forall name :: name in result.error.operators <==> name !in versions && name in skipOps)
  {
    RewritingIsAnUpdate(doc, operators, skipOps);
    ReadsBack(doc, layout);
    StaysLaidOut(doc, layout, operators, skipOps);
    ReadsBack(Rewritten(doc, SkippingByName(skipOps), PatchingByName(operators)), layout);
    VersionsUpdated(doc, operators, skipOps);
    ProductsAreKeys(doc);
    SubsetExactly(Names(operators), Products(doc));
    SubsetExactly(Elements(skipOps), Products(doc));
    hide Names, Elements, Products, Patched, Render, Rewritten, Versions, UpdatedVersions, ReadVersions, LaidOut;
    hide Unambiguous;
  }

  function OtherLines(doc: seq<Entry>): seq<string> {
    if doc == [] then []
    else OtherLines(doc[..|doc| - 1]) + if doc[|doc| - 1].Other? then [doc[|doc| - 1].text] else []
  }

  /** Lines outside product sections stay, in order. */
  lemma {:induction false} OtherLinesStay(doc: seq<Entry>, operators: seq<(string, string)>, skipOps: seq<string>)
    ensures OtherLines(Rewritten(doc, SkippingByName(skipOps), PatchingByName(operators))) == OtherLines(doc)
  {
    if doc != [] {
      var n := |doc| - 1;
      OtherLinesStay(doc[..n], operators, skipOps);
      var before := Rewritten(doc[..n], SkippingByName(skipOps), PatchingByName(operators));
      var last := Override(doc[n], operators);
      assert (before + [last])[..|before|] == before && before + [] == before;
      assert OtherLines(doc[..n]) + [] == OtherLines(doc[..n]);
    }
  }
}
