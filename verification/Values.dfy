/** Python values as they arrive in an action's JSON parameters, with the built-in
    conversions (`int`, `str`, truth value) the program applies to them. */
module Values {
  datatype Option<+T> = None | Some(value: T)

  /** `Other` covers floats and lists, known only by what `str`, `int` and `bool` give. */
  datatype Value =
    | Null
    | Bool(b: bool)
    | Int(i: int)
    | Str(s: string)
    | Obj(fields: map<string, Value>, text: string)
    | Other(text: string, number: Option<int>, truthy: bool)

  type Params = map<string, Value>

  /** `params.get(key, default)` */
  function GetOr(params: Params, key: string, default: Value): Value {
    if key in params then params[key] else default
  }

  /** `params.get(key)` */
  function Get(params: Params, key: string): Value {
    GetOr(params, key, Null)
  }

  /** The characters `str.isspace` accepts, which `int` strips and `\s` matches. */
  predicate IsSpace(c: char) {
    '\t' <= c <= '\r' || '\U{1C}' <= c <= ' ' || c == '\U{85}' || c == '\U{A0}' || c == '\U{1680}' ||
    '\U{2000}' <= c <= '\U{200A}' || c == '\U{2028}' || c == '\U{2029}' || c == '\U{202F}' ||
    c == '\U{205F}' || c == '\U{3000}'
  }

  function SkipSpace(s: string): (r: string)
    ensures |r| <= |s|
  {
    if s != "" && IsSpace(s[0]) then SkipSpace(s[1..]) else s
  }

  function DropTrailingSpace(s: string): string {
    if s != "" && IsSpace(s[|s| - 1]) then DropTrailingSpace(s[..|s| - 1]) else s
  }

  /** Digits with single underscores between them, as `int` accepts. */
  function DigitsValue(s: string, acc: int, afterDigit: bool): Option<int> {
    if s == "" then if afterDigit then Some(acc) else None
    else if '0' <= s[0] <= '9' then
      DigitsValue(s[1..], 10 * acc + (s[0] as int - '0' as int), true)
    else if s[0] == '_' && afterDigit then DigitsValue(s[1..], acc, false)
    else None
  }

  /** `int(s)` with ASCII digits; `None` is ValueError. */
  function ParseInt(s: string): Option<int> {
    var t := DropTrailingSpace(SkipSpace(s));
    if t == "" then None
    else if t[0] == '-' then
      match DigitsValue(t[1..], 0, false)
      case Some(n) => Some(-n)
      case None => None
    else DigitsValue(if t[0] == '+' then t[1..] else t, 0, false)
  }

  /** `int(v)`; `None` is TypeError or ValueError. */
  function PyInt(v: Value): Option<int> {
    match v
    case Null => None
    case Bool(b) => Some(if b then 1 else 0)
    case Int(i) => Some(i)
    case Str(s) => ParseInt(s)
    case Obj(_, _) => None
    case Other(_, number, _) => number
  }

  function Digit(n: nat): char
    requires n < 10
  {
    '0' + n as char
  }

  function Decimal(n: nat): (s: string)
    ensures s != "" && '0' <= s[0] <= '9'
  {
    if n < 10 then [Digit(n)] else Decimal(n / 10) + [Digit(n % 10)]
  }

  /** `str(i)` */
  function IntText(i: int): (s: string)
    ensures s != "" && (s[0] == '-' || '0' <= s[0] <= '9')
  {
    if i < 0 then "-" + Decimal(-i) else Decimal(i)
  }

  /** `str(v)` */
  function PyStr(v: Value): string {
    match v
    case Null => "None"
    case Bool(b) => if b then "True" else "False"
    case Int(i) => IntText(i)
    case Str(s) => s
    case Obj(_, text) => text
    case Other(text, _, _) => text
  }

  /** `bool(v)` */
  predicate Truthy(v: Value) {
    match v
    case Null => false
    case Bool(b) => b
    case Int(i) => i != 0
    case Str(s) => s != ""
    case Obj(fields, _) => fields != map[]
    case Other(_, _, truthy) => truthy
  }

  function LowerChar(c: char): char { if 'A' <= c <= 'Z' then (c as int + 32) as char else c }

  /** `str.lower` on ASCII letters. */
  function Lower(s: string): string {
    seq(|s|, i requires 0 <= i < |s| => LowerChar(s[i]))
  }

  /** Lower case keeps every position, is lower case, and turns A to Z into a to z. */
  lemma LowerIsLower(s: string)
    ensures |Lower(s)| == |s| && Lower(Lower(s)) == Lower(s)
    ensures forall i :: 0 <= i < |s| ==>
      if s[i] in "ABCDEFGHIJKLMNOPQRSTUVWXYZ" then Lower(s)[i] as int - 'a' as int == s[i] as int - 'A' as int
      else Lower(s)[i] == s[i]
  {
    forall i | 0 <= i < |s| && 'A' <= s[i] <= 'Z' ensures s[i] in "ABCDEFGHIJKLMNOPQRSTUVWXYZ" {
      assert "ABCDEFGHIJKLMNOPQRSTUVWXYZ"[s[i] as int - 'A' as int] == s[i];
    }
  }

  /** The white space of JSON counts, and nothing printable does. */
  lemma SpaceOrNot(c: char)
    ensures c in " \t\n\r" ==> IsSpace(c)
    ensures '!' <= c <= '~' ==> !IsSpace(c)
  {
  }

  // ---- Numbers as text ----

  predicate AllSpace(s: string) { forall i :: 0 <= i < |s| ==> IsSpace(s[i]) }

  lemma {:induction false} SkipsSpace(s: string, t: string)
    requires AllSpace(s) && (t == "" || !IsSpace(t[0]))
    ensures SkipSpace(s + t) == t
  {
    if s == "" {
      assert s + t == t;
    } else {
      assert (s + t)[1..] == s[1..] + t;
      SkipsSpace(s[1..], t);
    }
  }

  lemma {:induction false} DropsSpace(t: string, s: string)
    requires AllSpace(s) && (t == "" || !IsSpace(t[|t| - 1]))
    ensures DropTrailingSpace(t + s) == t
  {
    if s == "" {
      assert t + s == t;
    } else {
      assert (t + s)[..|t + s| - 1] == t + s[..|s| - 1];
      DropsSpace(t, s[..|s| - 1]);
    }
  }

  lemma {:induction false} DecimalDigits(n: nat)
    ensures forall i :: 0 <= i < |Decimal(n)| ==> '0' <= Decimal(n)[i] <= '9'
  {
    if n >= 10 {
      DecimalDigits(n / 10);
    }
  }

  function Power(k: nat): nat { if k == 0 then 1 else 10 * Power(k - 1) }

  /** Reading a number from its first digits on is reading the rest with those as accumulator. */
  lemma {:induction false} DigitsOf(n: nat, acc: nat, rest: string, started: bool)
    ensures DigitsValue(Decimal(n) + rest, acc, started) == DigitsValue(rest, acc * Power(|Decimal(n)|) + n, true)
  {
    if n < 10 {
      assert Decimal(n) + rest == [Digit(n)] + rest && ([Digit(n)] + rest)[1..] == rest;
      assert Power(1) == 10;
    } else {
      var front, last := Decimal(n / 10), [Digit(n % 10)];
      assert Decimal(n) + rest == front + (last + rest) && (last + rest)[1..] == rest;
      DigitsOf(n / 10, acc, last + rest, started);
      assert 10 * (acc * Power(|front|)) == acc * Power(|front| + 1);
    }
  }

  /** `int(str(i)) == i`, with any white space around it. */
  lemma IntOfText(before: string, i: int, after: string)
    requires AllSpace(before) && AllSpace(after)
    ensures ParseInt(before + IntText(i) + after) == Some(i)
  {
    var text := IntText(i);
    DecimalDigits(if i < 0 then -i else i);
    assert before + text + after == before + (text + after);
    SkipsSpace(before, text + after);
    DropsSpace(text, after);
    if i < 0 {
      assert text[1..] == Decimal(-i) && Decimal(-i) + "" == Decimal(-i);
      DigitsOf(-i, 0, "", false);
    } else {
      assert text + "" == text;
      DigitsOf(i, 0, "", false);
    }
  }

  /** Spellings that `int` takes and does not take. */
  lemma IntSpellings()
    ensures ParseInt("+12") == Some(12) && ParseInt("-3") == Some(-3) && ParseInt("1_0") == Some(10)
    ensures ParseInt("") == None && ParseInt("x") == None && ParseInt("1.5") == None && ParseInt("_1") == None
    ensures ParseInt("1_") == None && ParseInt("-") == None
  {
  }

  /** What `int` and `str` make of values that are no numbers or strings. */
  lemma OtherConversions(b: bool, i: int, s: string)
    ensures PyInt(Bool(b)) == Some(if b then 1 else 0) && PyInt(Null) == None
    ensures PyInt(Int(i)) == PyInt(Str(IntText(i))) == Some(i)
    ensures PyStr(Null) == "None" && PyStr(Bool(b)) == (if b then "True" else "False") && PyStr(Str(s)) == s
    ensures ParseInt(PyStr(Int(i))) == Some(i)
  {
    IntOfText("", i, "");
    assert "" + IntText(i) + "" == IntText(i);
  }

  /** What is false in a condition, and nothing else is. */
  lemma FalsyValues(v: Value)
    requires !v.Other?
    ensures Truthy(v) <==> v !in {Null, Bool(false), Int(0), Str("")} && !(v.Obj? && v.fields == map[])
  {
  }

  /** The parameters `{name: n}` of a plain integer map. */
  function IntParams(m: map<string, int>): Params {
    map w | w in m :: Int(m[w])
  }
}
