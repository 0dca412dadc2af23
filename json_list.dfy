/**
 * encoding/json restricted to what the permission cache stores: a list of
 * strings. Marshal writes a nil list as `null` and a non-empty one as
 * `["a","b"]`, escaping the quote and the backslash; Unmarshal accepts what
 * Marshal writes, and also `[]`.
 */
module JsonList {
  import opened Wrappers

  function Escape(s: string): string {
    if s == [] then []
    else (if s[0] == '"' || s[0] == '\\' then ['\\', s[0]] else [s[0]]) + Escape(s[1..])
  }

  function Quote(s: string): string {
    "\"" + Escape(s) + "\""
  }

  /** The quoted items separated by commas. */
  function Join(ps: seq<string>): (r: string)
    ensures ps != [] ==> |r| >= 2 && r[0] == '"'
  {
    if ps == [] then ""
    else if |ps| == 1 then Quote(ps[0])
    else Quote(ps[0]) + "," + Join(ps[1..])
  }

  /** json.Marshal of a []string; the list a query with no rows builds is nil. */
  function Marshal(ps: seq<string>): (r: string)
    ensures |r| >= 4
    ensures ps == [] <==> r == "null"
  {
    if ps == [] then "null"
    else
      var r := "[" + Join(ps) + "]";
      assert r[0] == '[';
      r
  }

  /** A string's content after its opening quote, up to its closing quote, and what follows it. */
  function ParseString(s: string): (r: Option<(string, string)>)
    ensures r.Some? ==> |r.value.1| < |s|
  {
    if s == [] then None
    else if s[0] == '"' then Some(("", s[1..]))
    else if s[0] == '\\' then
      if |s| >= 2 && (s[1] == '"' || s[1] == '\\') then
        match ParseString(s[2..])
        case Some(p) => Some(([s[1]] + p.0, p.1))
        case None => None
      else None
    else
      match ParseString(s[1..])
      case Some(p) => Some(([s[0]] + p.0, p.1))
      case None => None
  }

  /** Quoted items separated by commas, then the closing bracket and nothing after it. */
  function ParseItems(s: string): Option<seq<string>>
    decreases |s|
  {
    if s == [] || s[0] != '"' then None
    else match ParseString(s[1..])
      case None => None
      case Some(p) =>
        if p.1 == "]" then Some([p.0])
        else if p.1 != [] && p.1[0] == ',' then
          match ParseItems(p.1[1..])
          case Some(rest) => Some([p.0] + rest)
          case None => None
        else None
  }

  /** json.Unmarshal into a []string; `null` leaves the list nil. */
  function Unmarshal(s: string): (r: Option<seq<string>>)
    ensures s == "null" || s == "[]" ==> r == Some([])
    ensures r.Some? ==> s == "null" || (s != [] && s[0] == '[')
  {
    if s == "null" || s == "[]" then Some([])
    else if s != [] && s[0] == '[' then ParseItems(s[1..])
    else None
  }

  lemma {:induction false} ParseEscaped(c: string, rest: string)
    ensures ParseString(Escape(c) + "\"" + rest) == Some((c, rest))
  {
    if c == [] {
      assert Escape(c) + "\"" + rest == "\"" + rest;
    } else {
      ParseEscaped(c[1..], rest);
      var head := if c[0] == '"' || c[0] == '\\' then ['\\', c[0]] else [c[0]];
      assert Escape(c) + "\"" + rest == head + (Escape(c[1..]) + "\"" + rest);
      assert [c[0]] + c[1..] == c;
    }
  }

  /** The last quoted item, then the closing bracket. */
  lemma ParseLastItem(c: string)
    ensures ParseItems(Quote(c) + "]") == Some([c])
  {
    var s := Quote(c) + "]";
    assert s[1..] == Escape(c) + "\"" + "]";
    ParseEscaped(c, "]");
  }

  /** A quoted item, a comma, and the items after it. */
  lemma ParseNextItem(c: string, more: seq<string>, rest: string)
    requires ParseItems(rest) == Some(more)
    ensures ParseItems(Quote(c) + "," + rest) == Some([c] + more)
  {
    var s := Quote(c) + "," + rest;
    assert s[1..] == Escape(c) + "\"" + ("," + rest);
    ParseEscaped(c, "," + rest);
    assert ("," + rest)[1..] == rest;
  }

  lemma {:induction false} ParseJoined(ps: seq<string>)
    requires ps != []
    ensures ParseItems(Join(ps) + "]") == Some(ps)
  {
    if |ps| == 1 {
      ParseLastItem(ps[0]);
      assert [ps[0]] == ps;
    } else {
      ParseJoined(ps[1..]);
      ParseNextItem(ps[0], ps[1..], Join(ps[1..]) + "]");
      assert Join(ps) + "]" == Quote(ps[0]) + "," + (Join(ps[1..]) + "]");
      assert [ps[0]] + ps[1..] == ps;
    }
  }

  /** What Marshal writes, Unmarshal reads back. */
  lemma UnmarshalMarshal(ps: seq<string>)
    ensures Unmarshal(Marshal(ps)) == Some(ps)
  {
    if ps != [] {
      var s := Marshal(ps);
      assert s[0] == '[' && s[1..] == Join(ps) + "]";
      ParseJoined(ps);
    }
  }

  lemma EscapeCons(c: char, rest: string)
    ensures Escape([c] + rest) == (if c == '"' || c == '\\' then ['\\', c] else [c]) + Escape(rest)
  {
    assert ([c] + rest)[1..] == rest;
  }

  lemma JoinCons(x: string, rest: seq<string>)
    requires rest != []
    ensures Join([x] + rest) == Quote(x) + "," + Join(rest)
  {
    assert ([x] + rest)[1..] == rest;
  }

  lemma {:induction false} ParsedIsEscaped(s: string)
    requires ParseString(s).Some?
    ensures s == Escape(ParseString(s).value.0) + "\"" + ParseString(s).value.1
  {
    if s[0] == '"' {
    } else if s[0] == '\\' {
      ParsedIsEscaped(s[2..]);
      var p := ParseString(s[2..]).value;
      assert ParseString(s).value == ([s[1]] + p.0, p.1);
      EscapeCons(s[1], p.0);
      assert s == ['\\', s[1]] + s[2..];
    } else {
      ParsedIsEscaped(s[1..]);
      var p := ParseString(s[1..]).value;
      assert ParseString(s).value == ([s[0]] + p.0, p.1);
      EscapeCons(s[0], p.0);
      assert s == [s[0]] + s[1..];
    }
  }

  /** What a successful ParseItems read: one quoted item, then `]` or a comma and more items. */
  lemma ItemsStep(s: string)
    requires ParseItems(s).Some?
    ensures s != [] && s[0] == '"' && ParseString(s[1..]).Some?
    ensures var p := ParseString(s[1..]).value;
      || (p.1 == "]" && ParseItems(s).value == [p.0])
      || (p.1 != [] && p.1[0] == ',' && ParseItems(p.1[1..]).Some? &&
          ParseItems(s).value == [p.0] + ParseItems(p.1[1..]).value)
  {
  }

  /** A string that starts with a readable quoted string is that string, quoted, then the rest. */
  lemma ParsedIsQuoted(s: string)
    requires s != [] && s[0] == '"' && ParseString(s[1..]).Some?
    ensures s == Quote(ParseString(s[1..]).value.0) + ParseString(s[1..]).value.1
  {
    ParsedIsEscaped(s[1..]);
    assert s == [s[0]] + s[1..];
  }

  lemma QuotedBeforeJoined(c: string, rest: seq<string>, tail: string)
    requires rest != [] && tail == Join(rest) + "]"
    ensures Quote(c) + ("," + tail) == Join([c] + rest) + "]"
  {
    JoinCons(c, rest);
  }

  lemma {:induction false} ParsedIsJoined(s: string)
    requires ParseItems(s).Some?
    ensures ParseItems(s).value != [] && s == Join(ParseItems(s).value) + "]"
    decreases |s|
  {
    ItemsStep(s);
    var v := ParseItems(s).value;
    var p := ParseString(s[1..]).value;
    ParsedIsQuoted(s);
    if p.1 == "]" {
      assert v == [p.0];
    } else {
      var tail := p.1[1..];
      ParsedIsJoined(tail);
      var rest := ParseItems(tail).value;
      assert v == [p.0] + rest;
      assert p.1 == "," + tail;
      QuotedBeforeJoined(p.0, rest, tail);
    }
  }

  /** Unmarshal accepts nothing but Marshal's output and the empty array. */
  lemma MarshalUnmarshal(s: string)
    requires Unmarshal(s).Some? && s != "[]"
    ensures Marshal(Unmarshal(s).value) == s
  {
    if s != "null" {
      ParsedIsJoined(s[1..]);
      assert s == [s[0]] + s[1..];
    }
  }
}
