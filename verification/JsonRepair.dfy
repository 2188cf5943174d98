/** Recovering a JSON object from surrounding text, and removing trailing commas. */
module JsonRepair {
  import opened Values

  // ---- The brace scanner ----

  datatype Scan = Scan(depth: int, inString: bool, escapeNext: bool)

  const START := Scan(0, false, false)

  /** The character that brings the depth back to 0. */
  predicate Closes(s: Scan, ch: char) {
    !s.escapeNext && !s.inString && ch == '}' && s.depth == 1
  }

  function Step(s: Scan, ch: char): Scan {
    if s.escapeNext then s.(escapeNext := false)
    else if ch == '\\' then if s.inString then s.(escapeNext := true) else s
    else if ch == '"' then s.(inString := !s.inString)
    else if s.inString then s
    else if ch == '{' then s.(depth := s.depth + 1)
    else if ch == '}' then s.(depth := s.depth - 1)
    else s
  }

  /** The state after a text, unless the text closes the object on the way. */
  function Feed(s: Scan, text: string): Option<Scan> {
    if text == "" then Some(s)
    else
      var last := text[|text| - 1];
      match Feed(s, text[..|text| - 1])
      case None => None
      case Some(m) => if Closes(m, last) then None else Some(Step(m, last))
  }

  /** The text closes the object with its last character, not before. */
  predicate Closed(text: string) {
    text != "" && Feed(START, text[..|text| - 1]).Some? && Feed(START, text).None?
  }

  /** Where `text.find("{")` points; the length when there is none. */
  function FirstBrace(text: string): nat {
    if text == "" || text[0] == '{' then 0 else 1 + FirstBrace(text[1..])
  }

  lemma {:induction false} FirstBraceFinds(text: string)
    ensures FirstBrace(text) <= |text|
    ensures '{' !in text[..FirstBrace(text)]
    ensures FirstBrace(text) < |text| ==> text[FirstBrace(text)] == '{'
  {
    if text != "" && text[0] != '{' {
      FirstBraceFinds(text[1..]);
      assert text[..FirstBrace(text)] == [text[0]] + text[1..][..FirstBrace(text[1..])];
    }
  }

  /** The first object of a text: from the first brace to its match, else to the end; the
      text itself when it has no brace. */
  ghost predicate IsFirstObject(text: string, r: string) {
    if '{' !in text then r == text
    else
      var from := FirstBrace(text);
      from <= |text| && r <= text[from..] && (Closed(r) || (r == text[from..] && Feed(START, r).Some?))
  }

  method ExtractFirstObject(text: string) returns (r: string)
    ensures IsFirstObject(text, r)
  {
    var start := FirstBrace(text);
    FirstBraceFinds(text);
    if start == |text| {
      assert text[..start] == text;
      return text;
    }
    var s := START;
    for i := start to |text|
      invariant Feed(START, text[start..i]) == Some(s)
    {
      assert text[start..i + 1][..i - start] == text[start..i];
      if Closes(s, text[i]) {
        return text[start..i + 1];
      }
      s := Step(s, text[i]);
    }
    assert text[start..|text|] == text[start..];
    r := text[start..];
  }

  lemma {:induction false} FeedAppend(s: Scan, a: string, b: string)
    ensures Feed(s, a + b) == if Feed(s, a).None? then None else Feed(Feed(s, a).value, b)
  {
    if b == "" {
      assert a + b == a;
    } else {
      assert (a + b)[..|a + b| - 1] == a + b[..|b| - 1];
      FeedAppend(s, a, b[..|b| - 1]);
    }
  }

  lemma ClosedNotExtended(r: string, q: string)
    requires Closed(r) && r <= q && |r| < |q|
    ensures Feed(START, q[..|q| - 1]).None? && Feed(START, q).None?
  {
    assert q[..|q| - 1] == r + q[|r|..|q| - 1];
    FeedAppend(START, r, q[|r|..|q| - 1]);
  }

  lemma NotShorter(text: string, r: string, q: string)
    requires '{' in text && IsFirstObject(text, r) && IsFirstObject(text, q)
    ensures |r| >= |q|
  {
    var rest := text[FirstBrace(text)..];
    assert r == rest[..|r|] && q == rest[..|q|];
    if |r| < |q| && Closed(r) {
      assert r <= q;
      ClosedNotExtended(r, q);
    }
  }

  /** A text has one first object. */
  lemma FirstObjectIsUnique(text: string, r: string, q: string)
    requires IsFirstObject(text, r) && IsFirstObject(text, q)
    ensures r == q
  {
    if '{' in text {
      NotShorter(text, r, q);
      NotShorter(text, q, r);
    }
  }

  /** Extraction is idempotent on every text. */
  lemma ExtractionIsIdempotent(text: string, r: string)
    requires IsFirstObject(text, r)
    ensures IsFirstObject(r, r)
    ensures forall q :: IsFirstObject(r, q) ==> q == r
  {
    if '{' in text {
      FirstBraceFinds(text);
      assert text == text[..FirstBrace(text)] + text[FirstBrace(text)..];
      assert r != "" && r[0] == '{' && r[0..] == r;
    }
    forall q | IsFirstObject(r, q) ensures q == r {
      FirstObjectIsUnique(r, q, r);
    }
  }

  /** Opening less closing braces. */
  function Depth(text: string): int {
    if text == "" then 0
    else
      var last := text[|text| - 1];
      Depth(text[..|text| - 1]) + if last == '{' then 1 else if last == '}' then -1 else 0
  }

  /** Without quotes the scanner only counts braces, whatever backslashes there are; it stops when
      the count is back at 0. */
  lemma {:induction false} FeedCounts(text: string)
    requires text != "" && text[0] == '{' && '"' !in text
    ensures Feed(START, text[..|text| - 1]).Some? ==>
      Feed(START, text).None? == (Depth(text) == 0)
    ensures Feed(START, text).Some? ==> Feed(START, text).value == Scan(Depth(text), false, false)
    ensures Feed(START, text).Some? ==> forall i :: 0 < i <= |text| ==> Depth(text[..i]) >= 1
  {
    var front, last := text[..|text| - 1], text[|text| - 1];
    if front == "" {
      assert Depth(front) == 0 && text[..1] == text;
    } else {
      FeedCounts(front);
      if Feed(START, text).Some? {
        forall i | 0 < i <= |text| ensures Depth(text[..i]) >= 1 {
          assert if i < |text| then text[..i] == front[..i] else text[..i] == text;
        }
      }
    }
  }

  /** Of a text without quotes, extraction takes the part from the first brace to where the braces
      first balance, or to the end when they never do. */
  lemma ExtractionBalances(text: string, r: string)
    requires '{' in text && '"' !in text && IsFirstObject(text, r)
    ensures r <= text[FirstBrace(text)..] && r != ""
    ensures forall i :: 0 < i < |r| ==> Depth(r[..i]) >= 1
    ensures Depth(r) == 0 || (Depth(r) >= 1 && r == text[FirstBrace(text)..])
  {
    FirstBraceFinds(text);
    assert text == text[..FirstBrace(text)] + text[FirstBrace(text)..];
    assert r != "" && r[0] == '{' && '"' !in r;
    FeedCounts(r);
    if |r| > 1 {
      var front := r[..|r| - 1];
      FeedCounts(front);
      forall i | 0 < i < |r| ensures Depth(r[..i]) >= 1 {
        assert r[..i] == front[..i];
      }
    }
    assert r[..|r|] == r;
  }

  // ---- JSON texts ----

  /** A JSON text with its white space and, in a non-empty container, an optional trailing
      comma. `Scalar` is a number or literal name. */
  datatype Json =
    | Scalar(text: string)
    | Text(body: string)
    | Arr(elements: Elements, blank: string, comma: Option<string>)
    | Obj(members: Members, blank: string, comma: Option<string>)

  datatype Elements = NoElements | Element(before: string, value: Json, after: string, others: Elements)

  datatype Members =
    | NoMembers
    | Member(before: string, key: string, gap: string, lead: string, value: Json, after: string, others: Members)

  predicate Blank(s: string) {
    forall i :: 0 <= i < |s| ==> s[i] == ' ' || s[i] == '\t' || s[i] == '\n' || s[i] == '\r'
  }

  predicate ScalarChar(c: char) {
    '0' <= c <= '9' || 'a' <= c <= 'z' || 'A' <= c <= 'Z' || c == '+' || c == '-' || c == '.'
  }

  predicate HexChar(c: char) { '0' <= c <= '9' || 'a' <= c <= 'f' || 'A' <= c <= 'F' }

  /** The inside of a string literal: section 7 of RFC 8259. */
  predicate StringBody(s: string) {
    if s == "" then true
    else if s[0] == '\\' then
      |s| >= 2 &&
      if s[1] == 'u' then
        |s| >= 6 && HexChar(s[2]) && HexChar(s[3]) && HexChar(s[4]) && HexChar(s[5]) && StringBody(s[6..])
      else s[1] in "\"\\/bfnrt" && StringBody(s[2..])
    else s[0] != '"' && s[0] >= ' ' && StringBody(s[1..])
  }

  predicate CommaOk(comma: Option<string>) { comma.Some? ==> Blank(comma.value) }

  predicate Valid(v: Json) {
    match v
    case Scalar(text) => text != "" && forall i :: 0 <= i < |text| ==> ScalarChar(text[i])
    case Text(body) => StringBody(body)
    case Arr(elements, blank, comma) => ValidElements(elements) && Blank(blank) && CommaOk(comma)
    case Obj(members, blank, comma) => ValidMembers(members) && Blank(blank) && CommaOk(comma)
  }

  predicate ValidElements(es: Elements) {
    match es
    case NoElements => true
    case Element(before, value, after, others) =>
      Blank(before) && Valid(value) && Blank(after) && ValidElements(others)
  }

  predicate ValidMembers(ms: Members) {
    match ms
    case NoMembers => true
    case Member(before, key, gap, lead, value, after, others) =>
      Blank(before) && StringBody(key) && Blank(gap) && Blank(lead) && Valid(value) && Blank(after) &&
      ValidMembers(others)
  }

  function Quoted(body: string): string { "\"" + body + "\"" }

  function Trailing(comma: Option<string>): string { if comma.Some? then "," + comma.value else "" }

  function Print(v: Json): string {
    match v
    case Scalar(text) => text
    case Text(body) => Quoted(body)
    case Arr(elements, blank, comma) =>
      if elements.NoElements? then "[" + blank + "]"
      else "[" + (PrintElements(elements) + (Trailing(comma) + "]"))
    case Obj(members, blank, comma) =>
      if members.NoMembers? then "{" + blank + "}"
      else "{" + (PrintMembers(members) + (Trailing(comma) + "}"))
  }

  function PrintElements(es: Elements): string {
    match es
    case NoElements => ""
    case Element(before, value, after, others) =>
      var first := before + (Print(value) + after);
      if others.NoElements? then first else first + ("," + PrintElements(others))
  }

  function PrintMembers(ms: Members): string {
    match ms
    case NoMembers => ""
    case Member(before, key, gap, lead, value, after, others) =>
      var first := (before + (Quoted(key) + gap)) + (":" + (lead + (Print(value) + after)));
      if others.NoMembers? then first else first + ("," + PrintMembers(others))
  }

  // ---- Extraction recovers a printed object ----

  /** Scanned inside an object and outside strings, the text leaves the state as it was. */
  ghost predicate Neutral(t: string) {
    forall d :: d >= 1 ==> Feed(Scan(d, false, false), t) == Some(Scan(d, false, false))
  }

  lemma NeutralAppend(a: string, b: string)
    requires Neutral(a) && Neutral(b)
    ensures Neutral(a + b)
  {
    forall d | d >= 1 ensures Feed(Scan(d, false, false), a + b) == Some(Scan(d, false, false)) {
      FeedAppend(Scan(d, false, false), a, b);
    }
  }

  lemma {:induction false} NeutralPlain(t: string)
    requires forall i :: 0 <= i < |t| ==> t[i] !in "{}\"\\"
    ensures Neutral(t)
  {
    if t != "" {
      NeutralPlain(t[..|t| - 1]);
      forall d | d >= 1 ensures Feed(Scan(d, false, false), t) == Some(Scan(d, false, false)) {
        assert Feed(Scan(d, false, false), t[..|t| - 1]) == Some(Scan(d, false, false));
      }
    }
  }

  lemma FeedOne(s: Scan, c: char)
    ensures Feed(s, [c]) == if Closes(s, c) then None else Some(Step(s, c))
  {
  }

  /** A string body is passed over, whatever braces, quotes or backslashes it holds. */
  lemma {:induction false} FeedBody(d: int, body: string)
    requires d >= 1 && StringBody(body)
    ensures Feed(Scan(d, true, false), body) == Some(Scan(d, true, false))
    decreases |body|
  {
    var s := Scan(d, true, false);
    if body != "" {
      var n := if body[0] != '\\' then 1 else if body[1] == 'u' then 6 else 2;
      var unit := body[..n];
      assert body == unit + body[n..];
      FeedAppend(s, unit, body[n..]);
      FeedUnit(s, unit);
      FeedBody(d, body[n..]);
    }
  }

  /** One unescaped character, one short escape or one `\u` escape. */
  lemma FeedUnit(s: Scan, unit: string)
    requires s.inString && !s.escapeNext
    requires (|unit| == 1 && unit[0] != '"' && unit[0] != '\\') || (|unit| == 2 && unit[0] == '\\') ||
      (|unit| == 6 && unit[0] == '\\' && forall i :: 2 <= i < 6 ==> HexChar(unit[i]))
    ensures Feed(s, unit) == Some(s)
  {
    FeedOne(s, unit[0]);
    if |unit| == 1 {
      assert unit == [unit[0]];
    } else {
      assert unit[..2] == [unit[0]] + [unit[1]];
      FeedAppend(s, [unit[0]], [unit[1]]);
      FeedOne(s.(escapeNext := true), unit[1]);
      if |unit| == 2 {
        assert unit[..2] == unit;
      } else {
        assert unit == unit[..2] + unit[2..];
        FeedAppend(s, unit[..2], unit[2..]);
        FeedHex(s, unit[2..]);
      }
    }
  }

  lemma {:induction false} FeedHex(s: Scan, t: string)
    requires s.inString && !s.escapeNext && forall i :: 0 <= i < |t| ==> HexChar(t[i])
    ensures Feed(s, t) == Some(s)
  {
    if t != "" {
      FeedHex(s, t[..|t| - 1]);
    }
  }

  lemma NeutralQuoted(body: string)
    requires StringBody(body)
    ensures Neutral(Quoted(body))
  {
    forall d | d >= 1 ensures Feed(Scan(d, false, false), Quoted(body)) == Some(Scan(d, false, false)) {
      FeedBody(d, body);
      FeedOne(Scan(d, false, false), '"');
      FeedOne(Scan(d, true, false), '"');
      FeedAppend(Scan(d, false, false), "\"", body);
      FeedAppend(Scan(d, false, false), "\"" + body, "\"");
    }
  }

  /** A braced neutral text is neutral, and on its own closes exactly at its last character. */
  lemma Braced(inner: string)
    requires Neutral(inner)
    ensures Neutral("{" + (inner + "}")) && Closed("{" + (inner + "}"))
  {
    forall d | d >= 0
      ensures Feed(Scan(d, false, false), "{" + inner) == Some(Scan(d + 1, false, false))
    {
      FeedAppend(Scan(d, false, false), "{", inner);
      FeedOne(Scan(d, false, false), '{');
    }
    var t := "{" + (inner + "}");
    assert t == ("{" + inner) + "}" && t[..|t| - 1] == "{" + inner;
    forall d | d >= 0
      ensures Feed(Scan(d, false, false), t) == if d == 0 then None else Some(Scan(d, false, false))
    {
      FeedAppend(Scan(d, false, false), "{" + inner, "}");
      FeedOne(Scan(d + 1, false, false), '}');
    }
    assert Feed(Scan(0, false, false), t) == if 0 == 0 then None else Some(Scan(0, false, false));
    assert Feed(Scan(0, false, false), "{" + inner) == Some(Scan(0 + 1, false, false));
  }

  lemma NeutralBlank(t: string)
    requires Blank(t)
    ensures Neutral(t)
  {
    NeutralPlain(t);
  }

  lemma {:induction false} NeutralPrint(v: Json)
    requires Valid(v)
    ensures Neutral(Print(v))
    decreases v
  {
    match v
    case Scalar(text) =>
      NeutralPlain(text);
    case Text(body) =>
      NeutralQuoted(body);
    case Arr(elements, blank, comma) =>
      var inner := Inner(v);
      NeutralInner(v);
      NeutralPlain("[");
      NeutralPlain("]");
      NeutralAppend(inner, "]");
      NeutralAppend("[", inner + "]");
      PrintInner(v);
    case Obj(members, blank, comma) =>
      NeutralInner(v);
      Braced(Inner(v));
      PrintInner(v);
  }

  /** What stands between a container's brackets. */
  function Inner(v: Json): string
    requires v.Arr? || v.Obj?
  {
    if v.Arr? then
      if v.elements.NoElements? then v.blank else PrintElements(v.elements) + Trailing(v.comma)
    else if v.members.NoMembers? then v.blank else PrintMembers(v.members) + Trailing(v.comma)
  }

  lemma PrintInner(v: Json)
    requires v.Arr? || v.Obj?
    ensures Print(v) == if v.Arr? then "[" + (Inner(v) + "]") else "{" + (Inner(v) + "}")
  {
  }

  lemma {:induction false} NeutralInner(v: Json)
    requires Valid(v) && (v.Arr? || v.Obj?)
    ensures Neutral(Inner(v))
    decreases v, 0
  {
    NeutralBlank(v.blank);
    NeutralPlain(Trailing(v.comma));
    if v.Arr? {
      NeutralElements(v.elements);
      NeutralAppend(PrintElements(v.elements), Trailing(v.comma));
    } else {
      NeutralMembers(v.members);
      NeutralAppend(PrintMembers(v.members), Trailing(v.comma));
    }
  }

  lemma {:induction false} NeutralElements(es: Elements)
    requires ValidElements(es)
    ensures Neutral(PrintElements(es))
    decreases es
  {
    if es.Element? {
      NeutralPrint(es.value);
      NeutralPadded(es.before, Print(es.value), es.after);
      NeutralElements(es.others);
      NeutralPlain(",");
      NeutralAppend(",", PrintElements(es.others));
      NeutralAppend(es.before + (Print(es.value) + es.after), "," + PrintElements(es.others));
    } else {
      NeutralPlain("");
    }
  }

  lemma NeutralPadded(before: string, t: string, after: string)
    requires Blank(before) && Blank(after) && Neutral(t)
    ensures Neutral(before + (t + after))
  {
    NeutralBlank(before);
    NeutralBlank(after);
    NeutralAppend(t, after);
    NeutralAppend(before, t + after);
  }

  lemma {:induction false} NeutralMembers(ms: Members)
    requires ValidMembers(ms)
    ensures Neutral(PrintMembers(ms))
    decreases ms
  {
    if ms.Member? {
      var name := ms.before + (Quoted(ms.key) + ms.gap);
      var content := ms.lead + (Print(ms.value) + ms.after);
      NeutralQuoted(ms.key);
      NeutralPrint(ms.value);
      NeutralPadded(ms.before, Quoted(ms.key), ms.gap);
      NeutralPadded(ms.lead, Print(ms.value), ms.after);
      NeutralPlain(":");
      NeutralAppend(":", content);
      NeutralAppend(name, ":" + content);
      NeutralMembers(ms.others);
      NeutralPlain(",");
      NeutralAppend(",", PrintMembers(ms.others));
      NeutralAppend(name + (":" + content), "," + PrintMembers(ms.others));
    } else {
      NeutralPlain("");
    }
  }

  /** Extraction recovers exactly the object that was printed, from any text around it whose
      first brace it is. */
  lemma ExtractionRoundTrip(v: Json, prefix: string, suffix: string, r: string)
    requires Valid(v) && v.Obj? && '{' !in prefix
    ensures IsFirstObject(prefix + Print(v) + suffix, r) <==> r == Print(v)
  {
    var text := prefix + Print(v) + suffix;
    NeutralInner(v);
    Braced(Inner(v));
    PrintInner(v);
    FirstBraceAfter(prefix, Print(v) + suffix);
    assert text == prefix + (Print(v) + suffix);
    assert text[|prefix|] == '{' && text[|prefix|..] == Print(v) + suffix;
    assert IsFirstObject(text, Print(v));
    if IsFirstObject(text, r) {
      FirstObjectIsUnique(text, r, Print(v));
    }
  }

  lemma {:induction false} FirstBraceAfter(prefix: string, rest: string)
    requires '{' !in prefix && rest != "" && rest[0] == '{'
    ensures FirstBrace(prefix + rest) == |prefix|
  {
    if prefix == "" {
      assert prefix + rest == rest;
    } else {
      assert (prefix + rest)[1..] == prefix[1..] + rest;
      FirstBraceAfter(prefix[1..], rest);
    }
  }

  // ---- Trailing commas ----

  predicate Closer(c: char) { c == '}' || c == ']' }

  /** The first character that is no white space is no closing bracket. */
  predicate Opens(t: string) { SkipSpace(t) == "" || !Closer(SkipSpace(t)[0]) }

  /** `re.sub(r",\s*([}\]])", r"\1", t)`; the bracket, being no comma, passes through. */
  function CommaStep(t: string): string
    decreases |t|
  {
    if t == "" then ""
    else if t[0] == ',' && !Opens(t[1..]) then CommaStep(SkipSpace(t[1..]))
    else [t[0]] + CommaStep(t[1..])
  }

  /** A comma with nothing but white space after it. */
  predicate Pending(t: string) {
    t != "" && ((t[0] == ',' && SkipSpace(t[1..]) == "") || Pending(t[1..]))
  }

  lemma {:induction false} SkipAppend(a: string, b: string)
    ensures SkipSpace(a + b) == if SkipSpace(a) == "" then SkipSpace(b) else SkipSpace(a) + b
  {
    if a == "" {
      assert a + b == b;
    } else if IsSpace(a[0]) {
      assert (a + b)[1..] == a[1..] + b;
      SkipAppend(a[1..], b);
    }
  }

  lemma OpensAppend(a: string, b: string)
    ensures Opens(a + b) == if SkipSpace(a) == "" then Opens(b) else Opens(a)
  {
    SkipAppend(a, b);
  }

  /** The step works on two parts separately when no comma is left hanging between them. */
  lemma {:induction false} CommaAppend(a: string, b: string)
    requires !Pending(a) || Opens(b)
    ensures CommaStep(a + b) == CommaStep(a) + CommaStep(b)
    decreases |a|
  {
    if a == "" {
      assert a + b == b;
    } else {
      var tail := a[1..];
      assert (a + b)[1..] == tail + b;
      SkipAppend(tail, b);
      OpensAppend(tail, b);
      if a[0] == ',' && !Opens(tail) {
        SkipIsSuffix(tail);
        PendingSuffix(tail, |tail| - |SkipSpace(tail)|);
        CommaAppend(SkipSpace(tail), b);
      } else {
        CommaAppend(tail, b);
      }
    }
  }

  lemma {:induction false} PendingSuffix(t: string, n: nat)
    requires n <= |t|
    ensures Pending(t[n..]) ==> Pending(t)
  {
    if n > 0 {
      assert t[1..][n - 1..] == t[n..];
      PendingSuffix(t[1..], n - 1);
    }
  }

  lemma {:induction false} PendingAppend(a: string, b: string)
    ensures Pending(a + b) <==> Pending(b) || (Pending(a) && SkipSpace(b) == "")
  {
    if a == "" {
      assert a + b == b;
    } else {
      assert (a + b)[1..] == a[1..] + b;
      SkipAppend(a[1..], b);
      PendingAppend(a[1..], b);
    }
  }

  /** Text without commas passes through. */
  lemma {:induction false} CommaFree(t: string)
    requires ',' !in t
    ensures CommaStep(t) == t && !Pending(t)
  {
    if t != "" {
      assert ',' !in t[1..];
      CommaFree(t[1..]);
    }
  }

  /** Starts with something that is no closer and leaves no comma hanging: a printed value. */
  predicate Solid(t: string) { SkipSpace(t) != "" && Opens(t) && !Pending(t) }

  lemma {:induction false} BlankSkips(t: string)
    requires Blank(t)
    ensures SkipSpace(t) == "" && CommaStep(t) == t && !Pending(t)
  {
    CommaFree(t);
    if t != "" {
      BlankSkips(t[1..]);
    }
  }

  lemma {:induction false} SkipIsSuffix(t: string)
    ensures SkipSpace(t) == t[|t| - |SkipSpace(t)|..]
  {
    if t != "" && IsSpace(t[0]) {
      SkipIsSuffix(t[1..]);
    }
  }

  /** A string literal is rewritten inside, and only inside. */
  lemma CommaQuoted(body: string)
    ensures CommaStep(Quoted(body)) == Quoted(CommaStep(body)) && Solid(Quoted(body))
  {
    assert Quoted(body) == "\"" + (body + "\"");
    assert SkipSpace("\"") == "\"" && Opens("\"");
    CommaFree("\"");
    CommaAppend(body, "\"");
    CommaAppend("\"", body + "\"");
    PendingAppend("\"" + body, "\"");
    SkipAppend("\"", body + "\"");
  }

  /** The value without its trailing commas, its strings rewritten by the comma step. */
  function Fixed(v: Json): Json {
    match v
    case Scalar(_) => v
    case Text(body) => Text(CommaStep(body))
    case Arr(elements, blank, _) => Arr(FixedElements(elements), blank, None)
    case Obj(members, blank, _) => Json.Obj(FixedMembers(members), blank, None)
  }

  function FixedElements(es: Elements): Elements {
    match es
    case NoElements => NoElements
    case Element(before, value, after, others) => Element(before, Fixed(value), after, FixedElements(others))
  }

  function FixedMembers(ms: Members): Members {
    match ms
    case NoMembers => NoMembers
    case Member(before, key, gap, lead, value, after, others) =>
      Member(before, CommaStep(key), gap, lead, Fixed(value), after, FixedMembers(others))
  }

  /** The value without its trailing commas. */
  function Clean(v: Json): Json {
    match v
    case Scalar(_) => v
    case Text(_) => v
    case Arr(elements, blank, _) => Arr(CleanElements(elements), blank, None)
    case Obj(members, blank, _) => Json.Obj(CleanMembers(members), blank, None)
  }

  function CleanElements(es: Elements): Elements {
    match es
    case NoElements => NoElements
    case Element(before, value, after, others) => Element(before, Clean(value), after, CleanElements(others))
  }

  function CleanMembers(ms: Members): Members {
    match ms
    case NoMembers => NoMembers
    case Member(before, key, gap, lead, value, after, others) =>
      Member(before, key, gap, lead, Clean(value), after, CleanMembers(others))
  }

  // ---- The comma step on a printed value ----

  /** Rewritten piece by piece: `a` leaves no comma hanging. */
  lemma Piece(a: string, fixedA: string, b: string, fixedB: string)
    requires CommaStep(a) == fixedA && CommaStep(b) == fixedB && !Pending(a)
    ensures CommaStep(a + b) == fixedA + fixedB
    ensures !Pending(b) ==> !Pending(a + b)
  {
    CommaAppend(a, b);
    PendingAppend(a, b);
  }

  /** White space, a solid text, white space: solid. */
  lemma Padded(before: string, t: string, after: string)
    requires Blank(before) && Blank(after) && Solid(t)
    ensures Solid(before + (t + after)) && CommaStep(before + (t + after)) == before + (CommaStep(t) + after)
  {
    BlankSkips(before);
    BlankSkips(after);
    Piece(t, CommaStep(t), after, after);
    Piece(before, before, t + after, CommaStep(t) + after);
    SkipAppend(t, after);
    SkipAppend(before, t + after);
  }

  /** A separating comma stays when a solid text follows. */
  lemma Separated(t: string)
    requires Solid(t)
    ensures CommaStep("," + t) == "," + CommaStep(t) && !Pending("," + t)
  {
  }

  /** A trailing comma and the white space after it go. */
  lemma ClosedOff(comma: Option<string>, closer: char)
    requires CommaOk(comma) && Closer(closer)
    ensures CommaStep(Trailing(comma) + [closer]) == [closer]
    ensures !Pending(Trailing(comma) + [closer])
  {
    CommaFree([closer]);
    if comma.Some? {
      var t := "," + comma.value + [closer];
      BlankSkips(comma.value);
      SkipAppend(comma.value, [closer]);
      assert t[1..] == comma.value + [closer];
      assert SkipSpace(t[1..]) == [closer];
      PendingAppend(Trailing(comma), [closer]);
    } else {
      assert Trailing(comma) + [closer] == [closer];
    }
  }

  /** Bracketing rewritten inner text. */
  lemma Bracketed(opener: char, inner: string, fixed: string, comma: Option<string>, closer: char)
    requires (opener == '{' || opener == '[') && Closer(closer) && CommaOk(comma)
    requires CommaStep(inner) == fixed && !Pending(inner)
    ensures var t := [opener] + (inner + (Trailing(comma) + [closer]));
      CommaStep(t) == [opener] + (fixed + [closer]) && Solid(t)
  {
    ClosedOff(comma, closer);
    CommaFree([opener]);
    Piece(inner, fixed, Trailing(comma) + [closer], [closer]);
    Piece([opener], [opener], inner + (Trailing(comma) + [closer]), fixed + [closer]);
    SkipAppend([opener], inner + (Trailing(comma) + [closer]));
  }

  /** On a printed value the comma step removes the trailing commas and rewrites strings. */
  lemma {:induction false} CommaStepPrints(v: Json)
    requires Valid(v)
    ensures CommaStep(Print(v)) == Print(Fixed(v)) && Solid(Print(v))
    decreases v
  {
    match v
    case Scalar(text) =>
      CommaFree(text);
    case Text(body) =>
      CommaQuoted(body);
    case Arr(elements, blank, comma) =>
      if elements.NoElements? {
        BlankSkips(blank);
        Bracketed('[', blank, blank, None, ']');
        assert "[" + blank + "]" == ['['] + (blank + ("" + [']']));
        assert Print(Fixed(v)) == "[" + blank + "]";
      } else {
        CommaStepElements(elements);
        Bracketed('[', PrintElements(elements), PrintElements(FixedElements(elements)), comma, ']');
      }
    case Obj(members, blank, comma) =>
      if members.NoMembers? {
        BlankSkips(blank);
        Bracketed('{', blank, blank, None, '}');
        assert "{" + blank + "}" == ['{'] + (blank + ("" + ['}']));
        assert Print(Fixed(v)) == "{" + blank + "}";
      } else {
        CommaStepMembers(members);
        Bracketed('{', PrintMembers(members), PrintMembers(FixedMembers(members)), comma, '}');
      }
  }

  /** Two solid texts with a comma between them. */
  lemma Listed(first: string, rest: string)
    requires Solid(first) && Solid(rest)
    ensures CommaStep(first + ("," + rest)) == CommaStep(first) + ("," + CommaStep(rest))
    ensures Solid(first + ("," + rest))
  {
    Separated(rest);
    Piece(first, CommaStep(first), "," + rest, "," + CommaStep(rest));
    SkipAppend(first, "," + rest);
  }

  lemma {:induction false} CommaStepElements(es: Elements)
    requires ValidElements(es) && es.Element?
    ensures CommaStep(PrintElements(es)) == PrintElements(FixedElements(es)) && Solid(PrintElements(es))
    decreases es
  {
    CommaStepPrints(es.value);
    Padded(es.before, Print(es.value), es.after);
    if es.others.Element? {
      CommaStepElements(es.others);
      Listed(es.before + (Print(es.value) + es.after), PrintElements(es.others));
    }
  }

  /** A key and its value with a colon between them. */
  lemma Named(name: string, content: string)
    requires Solid(name) && Solid(content)
    ensures CommaStep(name + (":" + content)) == CommaStep(name) + (":" + CommaStep(content))
    ensures Solid(name + (":" + content))
  {
    CommaFree(":");
    Piece(":", ":", content, CommaStep(content));
    Piece(name, CommaStep(name), ":" + content, ":" + CommaStep(content));
    SkipAppend(name, ":" + content);
  }

  lemma {:induction false} CommaStepMembers(ms: Members)
    requires ValidMembers(ms) && ms.Member?
    ensures CommaStep(PrintMembers(ms)) == PrintMembers(FixedMembers(ms)) && Solid(PrintMembers(ms))
    decreases ms
  {
    var name := ms.before + (Quoted(ms.key) + ms.gap);
    var content := ms.lead + (Print(ms.value) + ms.after);
    CommaQuoted(ms.key);
    CommaStepPrints(ms.value);
    Padded(ms.before, Quoted(ms.key), ms.gap);
    Padded(ms.lead, Print(ms.value), ms.after);
    Named(name, content);
    if ms.others.Member? {
      CommaStepMembers(ms.others);
      Listed(name + (":" + content), PrintMembers(ms.others));
    }
  }

  // ---- When the result is the clean print ----

  /** No string of the value is changed by the comma step. */
  predicate StringsSafe(v: Json) {
    match v
    case Scalar(_) => true
    case Text(body) => !BareComma(body)
    case Arr(elements, _, _) => ElementsSafe(elements)
    case Obj(members, _, _) => MembersSafe(members)
  }

  predicate ElementsSafe(es: Elements) {
    match es
    case NoElements => true
    case Element(_, value, _, others) => StringsSafe(value) && ElementsSafe(others)
  }

  predicate MembersSafe(ms: Members) {
    match ms
    case NoMembers => true
    case Member(_, key, _, _, value, _, others) => !BareComma(key) && StringsSafe(value) && MembersSafe(others)
  }

  /** Somewhere a comma, optional white space, then a closing bracket. */
  predicate BareComma(t: string) {
    exists i :: 0 <= i < |t| && t[i] == ',' && !Opens(t[i + 1..])
  }

  lemma BareCommaCons(t: string)
    requires t != ""
    ensures BareComma(t) <==> (t[0] == ',' && !Opens(t[1..])) || BareComma(t[1..])
  {
  }

  lemma {:induction false} CommaStepShortens(t: string)
    ensures |CommaStep(t)| <= |t|
    ensures BareComma(t) ==> |CommaStep(t)| < |t|
    ensures !BareComma(t) ==> CommaStep(t) == t
    decreases |t|
  {
    if t != "" {
      BareCommaCons(t);
      if t[0] == ',' && !Opens(t[1..]) {
        CommaStepShortens(SkipSpace(t[1..]));
      } else {
        CommaStepShortens(t[1..]);
        assert t == [t[0]] + t[1..];
      }
    }
  }

  /** From position `i` on: a comma, white space up to `j`, and a closing bracket there. */
  predicate CommaBefore(t: string, i: int, j: int) {
    0 <= i < j < |t| && t[i] == ',' && t[j] in "}]" && forall k :: i < k < j ==> IsSpace(t[k])
  }

  lemma {:induction false} ClosesAfterSpace(t: string)
    ensures !Opens(t) <==> exists j :: 0 <= j < |t| && t[j] in "}]" && AllSpace(t[..j])
  {
    if t != "" && IsSpace(t[0]) {
      ClosesAfterSpace(t[1..]);
      if j :| 0 <= j < |t[1..]| && t[1..][j] in "}]" && AllSpace(t[1..][..j]) {
        assert t[..j + 1] == [t[0]] + t[1..][..j];
        assert AllSpace(t[..j + 1]) && t[j + 1] in "}]";
      }
      if j :| 0 <= j < |t| && t[j] in "}]" && AllSpace(t[..j]) {
        assert j > 0;
        assert t[1..][..j - 1] == t[..j][1..];
        assert AllSpace(t[1..][..j - 1]) && t[1..][j - 1] in "}]";
      }
    } else if t != "" {
      assert t[..0] == "";
      forall j | 0 < j < |t| ensures !AllSpace(t[..j]) {
        assert t[..j][0] == t[0];
      }
    }
  }

  /** What the comma step looks for, position by position. */
  lemma BareCommaMeans(t: string)
    ensures BareComma(t) <==> exists i, j :: CommaBefore(t, i, j)
  {
    forall i | 0 <= i < |t| && t[i] == ',' ensures !Opens(t[i + 1..]) <==> exists j :: CommaBefore(t, i, j) {
      var rest := t[i + 1..];
      ClosesAfterSpace(rest);
      if j :| 0 <= j < |rest| && rest[j] in "}]" && AllSpace(rest[..j]) {
        assert forall k :: i < k < i + 1 + j ==> t[k] == rest[..j][k - i - 1];
        assert CommaBefore(t, i, i + 1 + j);
      }
      if j :| CommaBefore(t, i, j) {
        assert AllSpace(rest[..j - i - 1]) && rest[j - i - 1] in "}]";
      }
    }
  }

  /** What it does there: comma and white space go, the bracket and everything else stays. */
  lemma CommaStepDrops(a: string, space: string, close: char, b: string)
    requires ',' !in a && ',' !in b && AllSpace(space) && close in "}]"
    ensures CommaStep(a + ("," + (space + ([close] + b)))) == a + ([close] + b)
  {
    var tail := [close] + b;
    SkipsSpace(space, tail);
    CommaFree(tail);
    CommaFree(a);
    assert ("," + (space + tail))[1..] == space + tail;
    CommaAppend(a, "," + (space + tail));
  }

  lemma {:induction false} FixedIsCleanIffSafe(v: Json)
    ensures |Print(Fixed(v))| <= |Print(Clean(v))|
    ensures StringsSafe(v) ==> Fixed(v) == Clean(v)
    ensures !StringsSafe(v) ==> |Print(Fixed(v))| < |Print(Clean(v))|
    decreases v
  {
    match v
    case Scalar(_) =>
    case Text(body) =>
      CommaStepShortens(body);
    case Arr(elements, blank, comma) =>
      FixedElementsIffSafe(elements);
    case Obj(members, blank, comma) =>
      FixedMembersIffSafe(members);
  }

  lemma {:induction false} FixedElementsIffSafe(es: Elements)
    ensures |PrintElements(FixedElements(es))| <= |PrintElements(CleanElements(es))|
    ensures ElementsSafe(es) ==> FixedElements(es) == CleanElements(es)
    ensures !ElementsSafe(es) ==> |PrintElements(FixedElements(es))| < |PrintElements(CleanElements(es))|
    decreases es
  {
    if es.Element? {
      FixedIsCleanIffSafe(es.value);
      FixedElementsIffSafe(es.others);
    }
  }

  lemma {:induction false} FixedMembersIffSafe(ms: Members)
    ensures |PrintMembers(FixedMembers(ms))| <= |PrintMembers(CleanMembers(ms))|
    ensures MembersSafe(ms) ==> FixedMembers(ms) == CleanMembers(ms)
    ensures !MembersSafe(ms) ==> |PrintMembers(FixedMembers(ms))| < |PrintMembers(CleanMembers(ms))|
    decreases ms
  {
    if ms.Member? {
      CommaStepShortens(ms.key);
      FixedIsCleanIffSafe(ms.value);
      FixedMembersIffSafe(ms.others);
    }
  }

  /** Extraction and then the comma step turn a printed object with trailing commas, inside
      any text, into its clean print exactly when no string in it holds a comma, optional
      white space and a closing bracket. */
  lemma TrailingCommasRepaired(v: Json, prefix: string, suffix: string, r: string)
    requires Valid(v) && v.Obj? && '{' !in prefix
    requires IsFirstObject(prefix + Print(v) + suffix, r)
    ensures CommaStep(r) == Print(Clean(v)) <==> StringsSafe(v)
  {
    ExtractionRoundTrip(v, prefix, suffix, r);
    CommaStepPrints(v);
    FixedIsCleanIffSafe(v);
  }

  /** A string that does lose text to the comma step. */
  lemma StringCanBeDamaged()
    ensures var v := Json.Obj(Member("", "k", "", "", Text(",]"), "", NoMembers), "", None);
      Valid(v) && !StringsSafe(v)
  {
  }
}
