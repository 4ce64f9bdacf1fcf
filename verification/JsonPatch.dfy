/**
 JSON documents, JSON Pointer (RFC 6901, sections 3 to 5) and the `add` operation of JSON Patch
 (RFC 6902, section 4.1): what the API server does with the patch the webhook answers with.
 */
module JsonPatch {
  import opened Wrappers

  datatype Json =
    | Null
    | Bool(b: bool)
    | Num(lexeme: string)
    | Str(s: string)
    | Arr(items: seq<Json>)
    | Obj(members: map<string, Json>)

  // ---------------------------------------------------------------- pointers

  function EscapeChar(c: char): string {
    if c == '~' then "~0" else if c == '/' then "~1" else [c]
  }

  function Escape(token: string): string {
    if token == "" then "" else EscapeChar(token[0]) + Escape(token[1..])
  }

  /** Builds a pointer out of raw tokens, escaping each. */
  function FromTokens(tokens: seq<string>): string {
    if tokens == [] then "" else "/" + Escape(tokens[0]) + FromTokens(tokens[1..])
  }

  /** Every `~` begins one of the two escapes. */
  predicate WellEscaped(text: string) {
    forall i :: 0 <= i < |text| && text[i] == '~' ==> i + 1 < |text| && (text[i + 1] == '0' || text[i + 1] == '1')
  }

  /** Replaces each occurrence of `~` followed by `digit`, from the left, by `c`. */
  function ReplaceEscape(text: string, digit: char, c: char): string {
    if |text| >= 2 && text[0] == '~' && text[1] == digit then [c] + ReplaceEscape(text[2..], digit, c)
    else if text == "" then ""
    else [text[0]] + ReplaceEscape(text[1..], digit, c)
  }

  /** RFC 6901, section 4: first `~1` becomes a slash, only then `~0` becomes a tilde. */
  function Unescape(text: string): string {
    ReplaceEscape(ReplaceEscape(text, '1', '/'), '0', '~')
  }

  function SplitAtSlashes(text: string): (parts: seq<string>)
    ensures |parts| > 0
  {
    if text == "" then [""]
    else
      var rest := SplitAtSlashes(text[1..]);
      if text[0] == '/' then [""] + rest else [[text[0]] + rest[0]] + rest[1..]
  }

  function UnescapeAll(parts: seq<string>): Option<seq<string>> {
    if parts == [] then Some([])
    else if !WellEscaped(parts[0]) then None
    else
      var rest :- UnescapeAll(parts[1..]);
      Some([Unescape(parts[0])] + rest)
  }

  function Parse(pointer: string): Option<seq<string>> {
    if pointer == "" then Some([])
    else if pointer[0] != '/' then None
    else UnescapeAll(SplitAtSlashes(pointer[1..]))
  }

  /** The intermediate text: tildes still escaped, slashes already restored. */
  function HalfEscape(token: string): string {
    if token == "" then "" else (if token[0] == '~' then "~0" else [token[0]]) + HalfEscape(token[1..])
  }

  lemma {:induction false} FirstPass(token: string)
    ensures ReplaceEscape(Escape(token), '1', '/') == HalfEscape(token)
  {
    if token != "" {
      FirstPass(token[1..]);
      var e := Escape(token);
      if token[0] == '~' {
        assert e == "~0" + Escape(token[1..]);
        assert e[1..] == "0" + Escape(token[1..]);
        assert e[1..][1..] == Escape(token[1..]);
        assert ReplaceEscape(e[1..], '1', '/') == "0" + ReplaceEscape(Escape(token[1..]), '1', '/');
      } else if token[0] == '/' {
        assert e == "~1" + Escape(token[1..]);
        assert e[2..] == Escape(token[1..]);
      } else {
        assert e[1..] == Escape(token[1..]);
      }
    }
  }

  lemma {:induction false} SecondPass(token: string)
    ensures ReplaceEscape(HalfEscape(token), '0', '~') == token
  {
    if token != "" {
      SecondPass(token[1..]);
      var h := HalfEscape(token);
      if token[0] == '~' {
        assert h == "~0" + HalfEscape(token[1..]);
        assert h[2..] == HalfEscape(token[1..]);
      } else {
        assert h[1..] == HalfEscape(token[1..]);
      }
    }
  }

  /** Unescaping undoes escaping, although both escapes contain a tilde. */
  lemma UnescapeEscape(token: string)
    ensures Unescape(Escape(token)) == token
  {
    FirstPass(token);
    SecondPass(token);
  }

  lemma {:induction false} EscapeConcat(front: string, back: string)
    ensures Escape(front + back) == Escape(front) + Escape(back)
  {
    if front == "" {
      assert front + back == back;
    } else {
      assert (front + back)[1..] == front[1..] + back;
      EscapeConcat(front[1..], back);
    }
  }

  lemma EscapeBetween(front: string, c: char, back: string)
    ensures Escape(front + [c] + back) == Escape(front) + EscapeChar(c) + Escape(back)
  {
    EscapeConcat(front + [c], back);
    EscapeConcat(front, [c]);
    assert Escape([c]) == EscapeChar(c);
    hide Escape, EscapeChar;
  }

  lemma {:induction false} EscapePlain(token: string)
    requires '~' !in token && '/' !in token
    ensures Escape(token) == token
  {
    if token != "" {
      EscapePlain(token[1..]);
      assert token == [token[0]] + token[1..];
    }
  }

  /** RFC 6901, section 3: a tilde is written `~0`, a slash `~1`, and everything else as it is. */
  lemma EscapeExactly(front: string, back: string)
    ensures Escape(front + "~" + back) == Escape(front) + "~0" + Escape(back)
    ensures Escape(front + "/" + back) == Escape(front) + "~1" + Escape(back)
    ensures '~' !in front && '/' !in front ==> Escape(front) == front
  {
    hide Escape;
    EscapeBetween(front, '~', back);
    EscapeBetween(front, '/', back);
    if '~' !in front && '/' !in front {
      EscapePlain(front);
    }
  }

  lemma {:induction false} EscapeWellFormed(token: string)
    ensures WellEscaped(Escape(token)) && '/' !in Escape(token)
  {
    if token != "" {
      EscapeWellFormed(token[1..]);
      var head, tail := EscapeChar(token[0]), Escape(token[1..]);
      forall i | 0 <= i < |head + tail| && (head + tail)[i] == '~'
        ensures i + 1 < |head + tail| && ((head + tail)[i + 1] == '0' || (head + tail)[i + 1] == '1')
      {
        if i >= |head| {
          assert tail[i - |head|] == '~';
        }
      }
    }
  }

  lemma {:induction false} SplitToken(token: string, rest: string)
    requires '/' !in token
    ensures SplitAtSlashes(token) == [token]
    ensures SplitAtSlashes(token + "/" + rest) == [token] + SplitAtSlashes(rest)
  {
    if token == "" {
      assert token + "/" + rest == "/" + rest;
      assert ("/" + rest)[1..] == rest;
    } else {
      SplitToken(token[1..], rest);
      assert (token + "/" + rest)[1..] == token[1..] + "/" + rest;
      assert [token[0]] + token[1..] == token;
    }
  }

  lemma ParseLast(text: string)
    requires WellEscaped(text) && '/' !in text
    ensures Parse("/" + text) == Some([Unescape(text)])
  {
    assert ("/" + text)[1..] == text;
    SplitToken(text, "");
    var parts := SplitAtSlashes(text);
    assert parts == [text] && parts[1..] == [] && parts[0] == text;
    assert UnescapeAll(parts[1..]) == Some([]);
    var none: seq<string> := [];
    assert [Unescape(parts[0])] + none == [Unescape(text)];
  }

  lemma ParseFirst(text: string, rest: string)
    requires WellEscaped(text) && '/' !in text
    requires Parse("/" + rest).Some?
    ensures Parse("/" + text + "/" + rest) == Some([Unescape(text)] + Parse("/" + rest).value)
  {
    var pointer := "/" + text + "/" + rest;
    assert pointer[1..] == text + "/" + rest;
    assert ("/" + rest)[1..] == rest;
    SplitToken(text, rest);
    var parts := SplitAtSlashes(pointer[1..]);
    assert parts[0] == text && parts[1..] == SplitAtSlashes(rest);
  }

  /** A pointer built from tokens, whatever slashes and tildes they contain, parses back to those tokens. */
  lemma {:induction false} ParseFromTokens(tokens: seq<string>)
    ensures Parse(FromTokens(tokens)) == Some(tokens)
  {
    if tokens != [] {
      hide Parse, Escape, Unescape, WellEscaped, FromTokens;
      ParseFromTokens(tokens[1..]);
      EscapeWellFormed(tokens[0]);
      UnescapeEscape(tokens[0]);
      PointerShape(tokens);
      assert tokens == [tokens[0]] + tokens[1..];
      if tokens[1..] == [] {
        ParseLast(Escape(tokens[0]));
      } else {
        ParseFirst(Escape(tokens[0]), FromTokens(tokens[1..])[1..]);
      }
    }
  }

  lemma PointerShape(tokens: seq<string>)
    requires tokens != []
    ensures var first, rest := Escape(tokens[0]), FromTokens(tokens[1..]);
            if tokens[1..] == [] then FromTokens(tokens) == "/" + first
            else && rest != "" && rest == "/" + rest[1..]
                 && FromTokens(tokens) == "/" + first + "/" + rest[1..]
  {
    hide Escape;
  }

  lemma {:induction false} UnescapePlain(text: string, digit: char, c: char)
    requires '~' !in text
    ensures ReplaceEscape(text, digit, c) == text
  {
    if text != "" {
      UnescapePlain(text[1..], digit, c);
      assert [text[0]] + text[1..] == text;
    }
  }

  /** A token without tildes is its own escape. */
  lemma ParsePlain(token: string, rest: string)
    requires '/' !in token && '~' !in token
    ensures Parse("/" + token) == Some([token])
    ensures Parse("/" + rest).Some? ==> Parse("/" + token + "/" + rest) == Some([token] + Parse("/" + rest).value)
  {
    UnescapePlain(token, '1', '/');
    UnescapePlain(token, '0', '~');
    ParseLast(token);
    if Parse("/" + rest).Some? {
      ParseFirst(token, rest);
    }
  }

  // ---------------------------------------------------------------- the add operation

  datatype Operation = Add(path: string, value: Json)

  datatype PatchError = InvalidPointer | MissingParent | NotAContainer | BadIndex

  function ParseDigits(text: string): Option<nat> {
    if text == "" then Some(0)
    else if '0' <= text[|text| - 1] <= '9' then
      var front :- ParseDigits(text[..|text| - 1]);
      Some(10 * front + (text[|text| - 1] - '0') as nat)
    else None
  }

  /** Array indices are digits without a leading zero. */
  function ParseIndex(token: string): Option<nat> {
    if token == "" || (|token| > 1 && token[0] == '0') then None else ParseDigits(token)
  }

  function AddToArray(items: seq<Json>, token: string, value: Json): Result<Json, PatchError> {
    if token == "-" then Ok(Arr(items + [value]))
    else
      match ParseIndex(token)
      case Some(i) => if i <= |items| then Ok(Arr(items[..i] + [value] + items[i..])) else Err(BadIndex)
      case None => Err(BadIndex)
  }

  function AddAt(doc: Json, tokens: seq<string>, value: Json): Result<Json, PatchError> {
    if tokens == [] then Ok(value)
    else
      match doc
      case Obj(members) =>
        if |tokens| == 1 then Ok(Obj(members[tokens[0] := value]))
        else if tokens[0] !in members then Err(MissingParent)
        else (
          match AddAt(members[tokens[0]], tokens[1..], value)
          case Ok(child) => Ok(Obj(members[tokens[0] := child]))
          case Err(e) => Err(e))
      case Arr(items) =>
        if |tokens| == 1 then AddToArray(items, tokens[0], value)
        else (
          match ParseIndex(tokens[0])
          case Some(i) =>
            if i >= |items| then Err(BadIndex)
            else (
              match AddAt(items[i], tokens[1..], value)
              case Ok(child) => Ok(Arr(items[i := child]))
              case Err(e) => Err(e))
          case None => Err(BadIndex))
      case _ => Err(NotAContainer)
  }

  /** The value a pointer's tokens refer to (RFC 6901, section 4). */
  function Find(doc: Json, tokens: seq<string>): Option<Json> {
    if tokens == [] then Some(doc)
    else
      match doc
      case Obj(members) => if tokens[0] in members then Find(members[tokens[0]], tokens[1..]) else None
      case Arr(items) => (
        match ParseIndex(tokens[0])
        case Some(i) => if i < |items| then Find(items[i], tokens[1..]) else None
        case None => None)
      case _ => None
  }

  /** An object takes any member; an array takes an element before an existing one or at its end. */
  predicate Takes(parent: Json, last: string) {
    match parent
    case Obj(_) => true
    case Arr(items) => last == "-" || (ParseIndex(last).Some? && ParseIndex(last).value <= |items|)
    case _ => false
  }

  /** The parent with the value added: a member set, or the later elements moved up by one. */
  ghost predicate Gains(parent: Json, last: string, value: Json, changed: Json)
    requires Takes(parent, last)
  {
    match parent
    case Obj(members) =>
      && changed.Obj? && changed.members.Keys == members.Keys + {last} && changed.members[last] == value
      && forall key :: key in members && key != last ==> changed.members[key] == members[key]
    case Arr(items) =>
      var i := if last == "-" then |items| else ParseIndex(last).value;
      && changed.Arr? && |changed.items| == |items| + 1 && changed.items[i] == value
      && (forall j :: 0 <= j < i ==> changed.items[j] == items[j])
      && (forall j :: i <= j < |items| ==> changed.items[j + 1] == items[j])
  }

  /** Without leading zeros a number is written in one way. */
  lemma {:induction false} OneSpelling(a: string, b: string)
    requires ParseIndex(a).Some? && ParseIndex(a) == ParseIndex(b)
    ensures a == b
  {
    var n, k := |a| - 1, |b| - 1;
    assert a == a[..n] + [a[n]] && b == b[..k] + [b[k]];
    var x, y := ParseDigits(a[..n]).value, ParseDigits(b[..k]).value;
    var d, e := (a[n] - '0') as nat, (b[k] - '0') as nat;
    assert 10 * x + d == 10 * y + e && d < 10 && e < 10;
    assert x == y && d == e;
    if n > 0 {
      Positive(a[..n]);
    }
    if k > 0 {
      Positive(b[..k]);
    }
    if n > 0 && k > 0 {
      OneSpelling(a[..n], b[..k]);
    }
  }

  lemma {:induction false} Positive(text: string)
    requires text != "" && text[0] != '0' && ParseDigits(text).Some?
    ensures ParseDigits(text).value > 0
  {
    if |text| > 1 {
      Positive(text[..|text| - 1]);
    }
  }

  /** Neither path runs through the other's value. */
  predicate Apart(path: seq<string>, other: seq<string>) {
    !(path <= other) && !(other <= path)
  }

  /** An `add` succeeds if and only if its parent takes the value, and the parent is then found with the value added. */
  lemma {:induction false} AddExactly(doc: Json, front: seq<string>, last: string, value: Json)
    ensures AddAt(doc, [], value) == Ok(value)
    ensures var parent, added := Find(doc, front), AddAt(doc, front + [last], value);
            && (added.Ok? <==> parent.Some? && Takes(parent.value, last))
            && (added.Ok? ==> Find(added.value, front).Some?
                              && Gains(parent.value, last, value, Find(added.value, front).value))
  {
    hide ParseIndex;
    var tokens := front + [last];
    if front == [] {
      assert tokens == [last];
    } else {
      assert tokens[1..] == front[1..] + [last];
      if doc.Obj? && front[0] in doc.members {
        AddExactly(doc.members[front[0]], front[1..], last, value);
      } else if doc.Arr? && ParseIndex(front[0]).Some? && ParseIndex(front[0]).value < |doc.items| {
        AddExactly(doc.items[ParseIndex(front[0]).value], front[1..], last, value);
      }
    }
  }

  /** Nothing is different outside the object or array that was added to. */
  lemma {:induction false} OthersStay(doc: Json, front: seq<string>, last: string, value: Json, other: seq<string>)
    requires AddAt(doc, front + [last], value).Ok? && Apart(front, other)
    ensures Find(AddAt(doc, front + [last], value).value, other) == Find(doc, other)
  {
    assert (front + [last])[1..] == front[1..] + [last];
    if front[0] == other[0] {
      assert front == [front[0]] + front[1..] && other == [other[0]] + other[1..];
      if doc.Obj? {
        OthersStay(doc.members[front[0]], front[1..], last, value, other[1..]);
      } else {
        OthersStay(doc.items[ParseIndex(front[0]).value], front[1..], last, value, other[1..]);
      }
    } else if doc.Arr? && ParseIndex(front[0]) == ParseIndex(other[0]) {
      OneSpelling(front[0], other[0]);
    }
  }

  function ApplyOperation(doc: Json, operation: Operation): Result<Json, PatchError> {
    match Parse(operation.path)
    case Some(tokens) => AddAt(doc, tokens, operation.value)
    case None => Err(InvalidPointer)
  }

  /** Operations apply in order; the first failure fails the patch. */
  function ApplyPatch(doc: Json, patch: seq<Operation>): Result<Json, PatchError>
    decreases |patch|
  {
    if patch == [] then Ok(doc)
    else
      match ApplyOperation(doc, patch[0])
      case Ok(next) => ApplyPatch(next, patch[1..])
      case Err(e) => Err(e)
  }

  function Continue(r: Result<Json, PatchError>, patch: seq<Operation>): Result<Json, PatchError> {
    if r.Ok? then ApplyPatch(r.value, patch) else r
  }

  lemma {:induction false} ApplyPatchConcat(doc: Json, first: seq<Operation>, second: seq<Operation>)
    ensures ApplyPatch(doc, first + second) == Continue(ApplyPatch(doc, first), second)
    decreases |first|
  {
    if first == [] {
      assert first + second == second;
    } else {
      assert (first + second)[1..] == first[1..] + second;
      match ApplyOperation(doc, first[0])
      case Ok(next) => ApplyPatchConcat(next, first[1..], second);
      case Err(_) =>
    }
  }

  /** A patch that succeeds has no failing prefix. */
  lemma PrefixesSucceed(doc: Json, patch: seq<Operation>, n: nat)
    requires ApplyPatch(doc, patch).Ok? && n <= |patch|
    ensures ApplyPatch(doc, patch[..n]).Ok?
  {
    assert patch == patch[..n] + patch[n..];
    ApplyPatchConcat(doc, patch[..n], patch[n..]);
  }

  lemma ApplyFirst(doc: Json, operation: Operation, rest: seq<Operation>)
    ensures ApplyPatch(doc, [operation] + rest)
            == Continue(ApplyOperation(doc, operation), rest)
  {
    assert ([operation] + rest)[1..] == rest;
  }
}
