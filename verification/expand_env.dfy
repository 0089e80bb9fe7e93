/** `expand_env`: one pass that replaces `${KEY}` placeholders by environment values. */
module ExpandEnv {
  import opened Prelude

  /** What a C lookup of a name gives; an unset name is absent. */
  type Environment = map<string, string>

  /** A text as a chain of segments. */
  datatype Template = End | Text(c: char, rest: Template) | Placeholder(key: string, rest: Template)

  /** The C string at the start of s: everything before the first NUL. */
  function CStr(s: string): string
  {
    if s == "" || s[0] == '\0' then "" else [s[0]] + CStr(s[1..])
  }

  function Lookup(env: Environment, key: string): Option<string>
  {
    if key == "" || CStr(key) !in env then None else Some(env[CStr(key)])
  }

  /** The first closing brace at or after position i, or the length if there is none. */
  function Close(s: string, i: nat): (r: nat)
    ensures r <= |s| && (r < |s| ==> i <= r && s[r] == '}')
    decreases |s| - i
  {
    if i >= |s| then |s| else if s[i] == '}' then i else Close(s, i + 1)
  }

  /** The text from position i up to the first closing brace. */
  function UpToClose(s: string, i: nat): string
    decreases |s| - i
  {
    if i >= |s| || s[i] == '}' then "" else [s[i]] + UpToClose(s, i + 1)
  }

  lemma {:induction false} UpToCloseIsSlice(s: string, i: nat)
    requires i <= |s|
    ensures i <= Close(s, i) && UpToClose(s, i) == s[i..Close(s, i)] && '}' !in UpToClose(s, i)
    decreases |s| - i
  {
    if i < |s| && s[i] != '}' {
      UpToCloseIsSlice(s, i + 1);
      var end, tail := Close(s, i), UpToClose(s, i + 1);
      assert s[i..end] == [s[i]] + s[i + 1..end];
      assert '}' !in [s[i]] + tail;
    }
  }

  /** A placeholder starts at position i: an opening with some closing brace after it. */
  predicate Opens(s: string, i: nat)
  {
    i + 1 < |s| && s[i] == '$' && s[i + 1] == '{' && Close(s, i + 2) < |s|
  }

  /** The segments from position i on, as one pass over the text finds them. */
  function ParseFrom(s: string, i: nat): Template
    decreases |s| - i
  {
    if i >= |s| then End
    else if Opens(s, i) then Placeholder(UpToClose(s, i + 2), ParseFrom(s, Close(s, i + 2) + 1))
    else Text(s[i], ParseFrom(s, i + 1))
  }

  function Parse(s: string): Template
  {
    ParseFrom(s, 0)
  }

  function Quoted(key: string): string { "${" + key + "}" }

  function Value(key: string, env: Environment): string
  {
    if Lookup(env, key).Some? then Lookup(env, key).value else Quoted(key)
  }

  function Unparse(t: Template): string
  {
    match t
    case End => ""
    case Text(c, rest) => [c] + Unparse(rest)
    case Placeholder(key, rest) => Quoted(key) + Unparse(rest)
  }

  function Render(t: Template, env: Environment): string
  {
    match t
    case End => ""
    case Text(c, rest) => [c] + Render(rest, env)
    case Placeholder(key, rest) => Value(key, env) + Render(rest, env)
  }

  function Expand(s: string, env: Environment): string
  {
    Render(Parse(s), env)
  }

  // ----- what stands before a text does not matter -----

  /** t is the end of s, from position d on. */
  ghost predicate EndsWith(s: string, d: nat, t: string)
  {
    |s| == d + |t| && forall j :: 0 <= j < |t| ==> s[d + j] == t[j]
  }

  lemma {:induction false} CloseShifts(s: string, d: nat, t: string, i: nat)
    requires EndsWith(s, d, t)
    ensures Close(s, d + i) == d + Close(t, i)
    decreases |t| - i
  {
    if i < |t| && t[i] != '}' {
      CloseShifts(s, d, t, i + 1);
    }
  }

  lemma OpensShifts(s: string, d: nat, t: string, i: nat)
    requires EndsWith(s, d, t)
    ensures Opens(s, d + i) <==> Opens(t, i)
  {
    CloseShifts(s, d, t, i + 2);
    assert i + 1 < |t| ==> s[d + (i + 1)] == t[i + 1];
  }

  lemma {:induction false} KeyShifts(s: string, d: nat, t: string, i: nat)
    requires EndsWith(s, d, t)
    ensures UpToClose(s, d + i) == UpToClose(t, i)
    decreases |t| - i
  {
    if i < |t| {
      KeyShifts(s, d, t, i + 1);
    }
  }

  lemma {:induction false} ParseShifts(s: string, d: nat, t: string, i: nat)
    requires EndsWith(s, d, t)
    ensures ParseFrom(s, d + i) == ParseFrom(t, i)
    decreases |t| - i
  {
    if i < |t| {
      OpensShifts(s, d, t, i);
      if Opens(t, i) {
        CloseShifts(s, d, t, i + 2);
        KeyShifts(s, d, t, i + 2);
        ParseShifts(s, d, t, Close(t, i + 2) + 1);
      } else {
        ParseShifts(s, d, t, i + 1);
      }
    }
  }

  lemma ParseText(c: char, t: string)
    requires !Opens([c] + t, 0)
    ensures Parse([c] + t) == Text(c, Parse(t))
  {
    ParseShifts([c] + t, 1, t, 0);
  }

  lemma {:induction false} CloseAt(s: string, i: nat, end: nat)
    requires i <= end < |s| && s[end] == '}' && forall j :: i <= j < end ==> s[j] != '}'
    ensures Close(s, i) == end
    decreases end - i
  {
    if i < end {
      CloseAt(s, i + 1, end);
    }
  }

  lemma QuotedAt(key: string, t: string)
    ensures var s := Quoted(key) + t;
      && s[0] == '$' && s[1] == '{' && s[2 + |key|] == '}' && s[2..2 + |key|] == key
      && EndsWith(s, |key| + 3, t)
  {
  }

  lemma ParsePlaceholder(key: string, t: string)
    requires '}' !in key
    ensures Opens(Quoted(key) + t, 0) && Parse(Quoted(key) + t) == Placeholder(key, Parse(t))
  {
    var s := Quoted(key) + t;
    QuotedAt(key, t);
    forall j | 2 <= j < 2 + |key| ensures s[j] != '}' {
      assert s[2..2 + |key|][j - 2] in key;
    }
    CloseAt(s, 2, 2 + |key|);
    UpToCloseIsSlice(s, 2);
    ParseShifts(s, |key| + 3, t, 0);
  }

  lemma QuotedSlice(s: string, i: nat, end: nat)
    requires i + 2 <= end < |s| && s[i] == '$' && s[i + 1] == '{' && s[end] == '}'
    ensures s[i..end + 1] == Quoted(s[i + 2..end])
  {
    var text, source := s[i..end + 1], Quoted(s[i + 2..end]);
    forall k | 0 <= k < |text| ensures text[k] == source[k] {
    }
  }

  /** A text with an opened placeholder at its start, taken apart. */
  lemma SplitPlaceholder(s: string) returns (key: string, t: string)
    requires Opens(s, 0)
    ensures s == Quoted(key) + t && '}' !in key
  {
    var end := Close(s, 2);
    key, t := s[2..end], s[end + 1..];
    UpToCloseIsSlice(s, 2);
    QuotedSlice(s, 0, end);
    assert s == s[0..end + 1] + t;
  }

  // ----- the only reading -----

  /** Nothing of the input is lost between the segments. */
  lemma {:induction false} ParseKeepsAll(s: string)
    ensures Unparse(Parse(s)) == s
    decreases |s|
  {
    if Opens(s, 0) {
      var key, t := SplitPlaceholder(s);
      ParsePlaceholder(key, t);
      ParseKeepsAll(t);
    } else if s != "" {
      assert s == [s[0]] + s[1..];
      ParseText(s[0], s[1..]);
      ParseKeepsAll(s[1..]);
    }
  }

  /** Keys hold no closing brace, and no opened placeholder is left as text. */
  ghost predicate Canonical(t: Template)
  {
    match t
    case End => true
    case Text(_, rest) => Canonical(rest) && !Opens(Unparse(t), 0)
    case Placeholder(key, rest) => Canonical(rest) && '}' !in key
  }

  lemma {:induction false} ParseIsCanonical(s: string)
    ensures Canonical(Parse(s))
    decreases |s|
  {
    ParseKeepsAll(s);
    if Opens(s, 0) {
      var key, t := SplitPlaceholder(s);
      ParsePlaceholder(key, t);
      ParseIsCanonical(t);
    } else if s != "" {
      assert s == [s[0]] + s[1..];
      ParseText(s[0], s[1..]);
      ParseIsCanonical(s[1..]);
    }
  }

  /** Parsing is the only canonical way to read a text. */
  lemma {:induction false} CanonicalIsParse(t: Template)
    requires Canonical(t)
    ensures Parse(Unparse(t)) == t
  {
    match t
    case End =>
    case Text(c, rest) =>
      CanonicalIsParse(rest);
      ParseText(c, Unparse(rest));
    case Placeholder(key, rest) =>
      CanonicalIsParse(rest);
      ParsePlaceholder(key, Unparse(rest));
  }

  // ----- expansion -----

  lemma ExpandText(c: char, t: string, env: Environment)
    requires !Opens([c] + t, 0)
    ensures Expand([c] + t, env) == [c] + Expand(t, env)
  {
    ParseText(c, t);
  }

  /** A placeholder is replaced as a whole; what replaces it is never looked at again. */
  lemma ExpandPlaceholder(key: string, t: string, env: Environment)
    requires '}' !in key
    ensures Expand(Quoted(key) + t, env) == Value(key, env) + Expand(t, env)
  {
    ParsePlaceholder(key, t);
  }

  lemma {:induction false} NameEndsAtNul(name: string, rest: string)
    requires '\0' !in name
    ensures CStr(name) == name && CStr(name + ['\0'] + rest) == name
  {
    if name != "" {
      var key := name + ['\0'] + rest;
      assert key[1..] == name[1..] + ['\0'] + rest;
      assert name == [name[0]] + name[1..];
      NameEndsAtNul(name[1..], rest);
    }
  }

  /** A set name gives its value, whatever follows a NUL in the key; an unset or empty one gives the placeholder back. */
  lemma ValueOfName(name: string, rest: string, env: Environment)
    requires '\0' !in name
    ensures Value(name, env) == if name != "" && name in env then env[name] else "${" + name + "}"
    ensures var key := name + ['\0'] + rest; Value(key, env) == if name in env then env[name] else "${" + key + "}"
  {
    NameEndsAtNul(name, rest);
  }

  /** With nothing set every input stays as it is. */
  lemma NothingSet(s: string)
    ensures Expand(s, map[]) == s
  {
    NothingRendered(Parse(s));
    ParseKeepsAll(s);
  }

  lemma {:induction false} NothingRendered(t: Template)
    ensures Render(t, map[]) == Unparse(t)
  {
    match t
    case End =>
    case Text(_, rest) => NothingRendered(rest);
    case Placeholder(_, rest) => NothingRendered(rest);
  }

  // ----- text without placeholders -----

  /** No placeholder opening inside. */
  predicate NoOpening(v: string)
  {
    forall i :: 0 <= i < |v| - 1 ==> !(v[i] == '$' && v[i + 1] == '{')
  }

  /** No opening inside, and none that a following brace could complete. */
  predicate Plain(v: string)
  {
    NoOpening(v) && (v == "" || v[|v| - 1] != '$')
  }

  lemma PlainTail(v: string, t: string)
    requires Plain(v) && v != ""
    ensures Plain(v[1..]) && !Opens([v[0]] + (v[1..] + t), 0)
    ensures [v[0]] + (v[1..] + t) == v + t
  {
    var rest := v[1..];
    forall i | 0 <= i < |rest| - 1 ensures !(rest[i] == '$' && rest[i + 1] == '{') {
      assert !(v[i + 1] == '$' && v[i + 2] == '{');
    }
  }

  lemma {:induction false} PlainPrefix(v: string, t: string, env: Environment)
    requires Plain(v)
    ensures Expand(v + t, env) == v + Expand(t, env)
  {
    if v == "" {
      assert v + t == t;
    } else {
      PlainTail(v, t);
      PlainPrefix(v[1..], t, env);
      ExpandText(v[0], v[1..] + t, env);
      Associative([v[0]], v[1..], Expand(t, env));
      assert v == [v[0]] + v[1..];
    }
  }

  /** Without a closing brace there is nothing to replace. */
  lemma {:induction false} NoCloseNoChange(s: string, env: Environment)
    requires '}' !in s
    ensures Expand(s, env) == s
  {
    if s != "" {
      assert s == [s[0]] + s[1..];
      NoCloseNoChange(s[1..], env);
      ExpandText(s[0], s[1..], env);
    }
  }

  lemma {:induction false} NoCloseAhead(s: string, i: nat)
    requires i <= |s| && Close(s, i) == |s|
    ensures '}' !in s[i..]
    decreases |s| - i
  {
    if i < |s| {
      NoCloseAhead(s, i + 1);
      assert s[i..] == [s[i]] + s[i + 1..];
    }
  }

  // ----- the code -----

  /** `result` is what the text before position idx expands to. */
  ghost predicate Reached(input: string, env: Environment, idx: nat, result: string)
  {
    idx <= |input| && Expand(input, env) == result + Render(ParseFrom(input, idx), env)
  }

  lemma ReachedStart(input: string, env: Environment)
    ensures Reached(input, env, 0, "")
  {
    assert "" + Render(ParseFrom(input, 0), env) == Render(ParseFrom(input, 0), env);
  }

  lemma ReachedEnd(input: string, env: Environment, result: string)
    requires Reached(input, env, |input|, result)
    ensures result == Expand(input, env)
  {
    assert result + "" == result;
  }

  lemma Associative(a: string, b: string, c: string)
    ensures a + (b + c) == (a + b) + c
  {
  }

  lemma AppendText(input: string, env: Environment, idx: nat, result: string)
    requires Reached(input, env, idx, result) && idx < |input| && !Opens(input, idx)
    ensures Reached(input, env, idx + 1, result + [input[idx]])
  {
    Associative(result, [input[idx]], Render(ParseFrom(input, idx + 1), env));
  }

  lemma AppendValue(input: string, env: Environment, idx: nat, end: nat, result: string, piece: string)
    requires Reached(input, env, idx, result) && Opens(input, idx) && Close(input, idx + 2) == end
    requires piece == Value(UpToClose(input, idx + 2), env)
    ensures Reached(input, env, end + 1, result + piece)
  {
    Associative(result, piece, Render(ParseFrom(input, end + 1), env));
  }

  /** What the code inserts for a placeholder. */
  function Inserted(input: string, idx: nat, end: nat, env: Environment): string
    requires idx + 2 <= end < |input|
  {
    var value := Lookup(env, input[idx + 2..end]);
    if value.Some? then value.value else input[idx..end + 1]
  }

  lemma InsertedIsValue(input: string, idx: nat, end: nat, env: Environment)
    requires Opens(input, idx) && Close(input, idx + 2) == end
    ensures Inserted(input, idx, end, env) == Value(UpToClose(input, idx + 2), env)
  {
    UpToCloseIsSlice(input, idx + 2);
    QuotedSlice(input, idx, end);
  }

  /** `expand_env` itself. */
  method ExpandEnvironment(input: string, env: Environment) returns (result: string)
    ensures result == Expand(input, env)
  {
    result := "";
    var idx := 0;
    ReachedStart(input, env);
    while idx < |input|
      invariant Reached(input, env, idx, result)
    {
      if input[idx] == '$' && idx + 1 < |input| && input[idx + 1] == '{' {
        var end := Close(input, idx + 2);
        if end < |input| {
          var piece := Inserted(input, idx, end, env);
          InsertedIsValue(input, idx, end, env);
          AppendValue(input, env, idx, end, result, piece);
          result := result + piece;
          idx := end + 1;
          continue;
        }
      }
      AppendText(input, env, idx, result);
      result := result + [input[idx]];
      idx := idx + 1;
    }
    ReachedEnd(input, env, result);
  }
}
