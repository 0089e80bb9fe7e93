/** When expanding an expanded text changes nothing any more. */
module Idempotence {
  import opened Prelude
  import opened ExpandEnv

  /** Names and values are C strings, and no name is empty. */
  ghost predicate IsEnvironment(env: Environment)
  {
    forall k :: k in env ==> k != "" && '\0' !in k && '\0' !in env[k]
  }

  /** A name that a placeholder can spell. */
  predicate Spelled(env: Environment, k: string)
  {
    k in env && '}' !in k
  }

  ghost predicate Idempotent(env: Environment)
  {
    forall s :: Expand(Expand(s, env), env) == Expand(s, env)
  }

  /** Expanding this placeholder changes nothing: it is unset, or its value quotes it. */
  predicate Inert(key: string, env: Environment)
  {
    Value(key, env) == Quoted(key)
  }

  /** Some name starts with x. */
  ghost predicate Extendable(x: string, env: Environment)
  {
    exists k :: Spelled(env, k) && x <= k
  }

  /** Every placeholder is inert, and an opening left without its closing brace is the start of no name. */
  ghost predicate Safe(t: Template, env: Environment)
  {
    match t
    case End => true
    case Placeholder(key, rest) => Inert(key, env) && Safe(rest, env)
    case Text(c, rest) =>
      if c == '$' && rest.Text? && rest.c == '{' then !Extendable(Unparse(rest.rest), env) else Safe(rest, env)
  }

  ghost predicate SafeText(u: string, env: Environment)
  {
    Safe(Parse(u), env)
  }

  /** The value is safe on its own, after a dollar sign, before an opening brace, and between the two. */
  ghost predicate Harmless(v: string, env: Environment)
  {
    && SafeText(v, env) && SafeText(['$'] + v, env)
    && SafeText(v + ['{'], env) && SafeText(['$'] + (v + ['{']), env)
  }

  ghost predicate AllInert(t: Template, env: Environment)
  {
    match t
    case End => true
    case Text(_, rest) => AllInert(rest, env)
    case Placeholder(key, rest) => Inert(key, env) && AllInert(rest, env)
  }

  lemma {:induction false} InertRenders(t: Template, env: Environment)
    requires AllInert(t, env)
    ensures Render(t, env) == Unparse(t)
  {
    match t
    case End =>
    case Text(_, rest) => InertRenders(rest, env);
    case Placeholder(_, rest) => InertRenders(rest, env);
  }

  lemma InertIsFixed(u: string, env: Environment)
    requires AllInert(Parse(u), env)
    ensures Expand(u, env) == u
  {
    InertRenders(Parse(u), env);
    ParseKeepsAll(u);
  }

  // ----- reading safety off a text -----

  predicate StartsOpening(u: string)
  {
    |u| >= 2 && u[0] == '$' && u[1] == '{'
  }

  lemma ParseFirst(u: string)
    ensures u == "" ==> Parse(u) == End
    ensures u != "" && !Opens(u, 0) ==> Parse(u).Text? && Parse(u).c == u[0]
    ensures Opens(u, 0) ==> Parse(u).Placeholder?
  {
  }

  lemma SafeAfterText(c: char, t: string, env: Environment)
    requires !StartsOpening([c] + t)
    ensures SafeText([c] + t, env) <==> SafeText(t, env)
  {
    ParseText(c, t);
    ParseFirst(t);
    assert t != "" ==> ([c] + t)[1] == t[0];
  }

  lemma SafeAfterPlaceholder(key: string, t: string, env: Environment)
    requires '}' !in key
    ensures SafeText(Quoted(key) + t, env) <==> Inert(key, env) && SafeText(t, env)
  {
    ParsePlaceholder(key, t);
  }

  lemma OpensCloses(u: string)
    ensures Opens(u, 0) ==> '}' in u[2..] && '}' in u
  {
    assert Opens(u, 0) ==> u[2..][Close(u, 2) - 2] == '}';
  }

  lemma Unclosed(x: string)
    requires '}' !in x
    ensures !Opens(['$'] + (['{'] + x), 0)
    ensures Parse(['$'] + (['{'] + x)) == Text('$', Text('{', Parse(x)))
  {
    var u := ['$'] + (['{'] + x);
    OpensCloses(u);
    assert u[2..] == x;
    ParseText('$', ['{'] + x);
    ParseText('{', x);
  }

  lemma SafeUnclosed(x: string, env: Environment)
    requires '}' !in x
    ensures SafeText(['$'] + (['{'] + x), env) <==> !Extendable(x, env)
  {
    Unclosed(x);
    ParseKeepsAll(x);
  }

  /** A text that starts with an opening nothing closes. */
  lemma SplitUnclosed(u: string) returns (x: string)
    requires StartsOpening(u) && !Opens(u, 0)
    ensures u == ['$'] + (['{'] + x) && '}' !in x
  {
    x := u[2..];
    NoCloseAhead(u, 2);
  }

  // ----- harmless values keep every output inert -----

  lemma {:induction false} PlainIsInert(o: string, env: Environment)
    requires '}' !in o
    ensures AllInert(Parse(o), env)
  {
    if o != "" {
      assert o == [o[0]] + o[1..];
      PlainIsInert(o[1..], env);
      OpensCloses(o);
      ParseText(o[0], o[1..]);
    }
  }

  lemma FirstClose(o: string) returns (p: string, q: string)
    requires '}' in o
    ensures o == p + (['}'] + q) && '}' !in p && |q| < |o|
  {
    UpToCloseIsSlice(o, 0);
    var i := Close(o, 0);
    assert o[0..|o|] == o;
    p, q := o[..i], o[i + 1..];
    assert p == o[0..i];
  }

  /** Whatever precedes it, what follows the first closing brace is read the same way. */
  lemma {:induction false} InertAfterClose(p: string, q: string, env: Environment)
    requires '}' !in p && AllInert(Parse(p + (['}'] + q)), env)
    ensures AllInert(Parse(q), env)
    decreases |p|
  {
    var o := p + (['}'] + q);
    if StartsOpening(p) {
      assert p == ['$', '{'] + p[2..];
      assert o == Quoted(p[2..]) + q;
      ParsePlaceholder(p[2..], q);
    } else if p == "" {
      assert o == ['}'] + q;
      ParseText('}', q);
    } else {
      assert p == [p[0]] + p[1..] && o == [p[0]] + (p[1..] + (['}'] + q));
      assert |p| == 1 ==> o[1] == '}';
      assert |p| > 1 ==> o[1] == p[1];
      ParseText(p[0], p[1..] + (['}'] + q));
      InertAfterClose(p[1..], q, env);
    }
  }

  lemma {:induction false} CStrPrefix(x: string, p: string)
    requires '\0' !in x
    ensures CStr(x + p) == x + CStr(p)
  {
    if x != "" {
      assert (x + p)[1..] == x[1..] + p;
      CStrPrefix(x[1..], p);
      assert x == [x[0]] + x[1..];
    } else {
      assert x + p == p;
    }
  }

  lemma {:induction false} CStrIsPrefix(s: string)
    ensures CStr(s) <= s && '\0' !in CStr(s)
  {
    if s != "" && s[0] != '\0' {
      CStrIsPrefix(s[1..]);
      assert s == [s[0]] + s[1..];
    }
  }

  lemma UnextendableIsInert(x: string, p: string, env: Environment)
    requires '\0' !in x && '}' !in x && '}' !in p && !Extendable(x, env)
    ensures Inert(x + p, env)
  {
    CStrPrefix(x, p);
    CStrIsPrefix(p);
    var k := CStr(x + p);
    assert x <= k && '}' !in k;
    assert Spelled(env, k) ==> Extendable(x, env);
  }

  ghost predicate SafeBefore(u: string, env: Environment)
  {
    SafeText(u, env) && SafeText(u + ['{'], env)
  }

  lemma PlaceholderPrefix(key: string, t: string, o: string, env: Environment)
    requires '}' !in key && SafeBefore(Quoted(key) + t, env)
    ensures SafeBefore(t, env)
    ensures AllInert(Parse(t + o), env) ==> AllInert(Parse((Quoted(key) + t) + o), env)
  {
    Associative(Quoted(key), t, ['{']);
    Associative(Quoted(key), t, o);
    SafeAfterPlaceholder(key, t, env);
    SafeAfterPlaceholder(key, t + ['{'], env);
    ParsePlaceholder(key, t + o);
  }

  lemma NoTrailingDollar(k: string, env: Environment)
    requires Spelled(env, k)
    ensures !SafeBefore(['$'], env)
  {
    assert ['$'] + ['{'] == ['$'] + (['{'] + "");
    SafeUnclosed("", env);
    AnyNameExtendsNothing(k, env);
  }

  lemma TextPrefix(c: char, t: string, o: string, k: string, env: Environment)
    requires Spelled(env, k) && SafeBefore([c] + t, env) && !StartsOpening([c] + t)
    ensures SafeBefore(t, env)
    ensures AllInert(Parse(t + o), env) ==> AllInert(Parse(([c] + t) + o), env)
  {
    NoTrailingDollar(k, env);
    assert t == "" ==> [c] + t == [c];
    assert t != "" ==> ([c] + t)[1] == t[0] == (t + ['{'])[0] == (t + o)[0];
    Associative([c], t, ['{']);
    Associative([c], t, o);
    SafeAfterText(c, t, env);
    SafeAfterText(c, t + ['{'], env);
    ParseText(c, t + o);
  }

  /** A text that is safe on its own and before a brace does not disturb what follows it. */
  lemma {:induction false} SafePrefix(u: string, o: string, k: string, env: Environment)
    requires Spelled(env, k) && '\0' !in u && SafeBefore(u, env) && AllInert(Parse(o), env)
    ensures AllInert(Parse(u + o), env)
    decreases |u|
  {
    if u == "" {
      assert u + o == o;
    } else if Opens(u, 0) {
      var key, t := SplitPlaceholder(u);
      PlaceholderPrefix(key, t, o, env);
      SafePrefix(t, o, k, env);
    } else if StartsOpening(u) {
      OpenPrefix(u, o, env);
    } else {
      assert u == [u[0]] + u[1..];
      TextPrefix(u[0], u[1..], o, k, env);
      SafePrefix(u[1..], o, k, env);
    }
  }

  lemma OpenPrefix(u: string, o: string, env: Environment)
    requires StartsOpening(u) && !Opens(u, 0) && '\0' !in u && SafeText(u, env) && AllInert(Parse(o), env)
    ensures AllInert(Parse(u + o), env)
  {
    var x := SplitUnclosed(u);
    SafeUnclosed(x, env);
    UnclosedPrefix(x, o, env);
    Associative(['{'], x, o);
    Associative(['$'], ['{'] + x, o);
  }

  lemma QuotedParts(x: string, p: string, q: string)
    ensures ['$'] + (['{'] + (x + (p + (['}'] + q)))) == Quoted(x + p) + q
  {
  }

  lemma UnclosedPrefix(x: string, o: string, env: Environment)
    requires '\0' !in x && '}' !in x && !Extendable(x, env) && AllInert(Parse(o), env)
    ensures AllInert(Parse(['$'] + (['{'] + (x + o))), env)
  {
    if '}' in o {
      var p, q := FirstClose(o);
      InertAfterClose(p, q, env);
      UnextendableIsInert(x, p, env);
      QuotedParts(x, p, q);
      ParsePlaceholder(x + p, q);
    } else {
      PlainIsInert(['$'] + (['{'] + (x + o)), env);
    }
  }

  ghost predicate AllHarmless(env: Environment)
  {
    forall k :: Spelled(env, k) ==> Harmless(env[k], env)
  }

  /** The name behind a set placeholder. */
  lemma NameOf(key: string, env: Environment) returns (k: string)
    requires '}' !in key && Lookup(env, key).Some?
    ensures Spelled(env, k) && Lookup(env, key) == Some(env[k])
  {
    k := CStr(key);
    CStrIsPrefix(key);
  }

  lemma AnyNameExtendsNothing(k: string, env: Environment)
    requires Spelled(env, k)
    ensures Extendable("", env)
  {
    assert "" <= k;
  }

  lemma EmptyIsHarmful(k: string, env: Environment)
    requires Spelled(env, k) && Harmless(env[k], env)
    ensures env[k] != ""
  {
    if env[k] == "" {
      assert ['$'] + (env[k] + ['{']) == ['$'] + (['{'] + "");
      SafeUnclosed("", env);
      AnyNameExtendsNothing(k, env);
    }
  }

  lemma {:induction false} OutputsAreInert(s: string, env: Environment)
    requires IsEnvironment(env) && AllHarmless(env)
    ensures AllInert(Parse(Expand(s, env)), env)
    decreases |s|
  {
    if Opens(s, 0) {
      var key, t := SplitPlaceholder(s);
      ExpandPlaceholder(key, t, env);
      OutputsAreInert(t, env);
      if Lookup(env, key).Some? {
        var k := NameOf(key, env);
        SafePrefix(env[k], Expand(t, env), k, env);
      } else {
        ParsePlaceholder(key, Expand(t, env));
      }
    } else if s != "" {
      var c, t := s[0], s[1..];
      assert s == [c] + t;
      ExpandText(c, t, env);
      OutputsAreInert(t, env);
      if Opens([c] + Expand(t, env), 0) {
        var key, rest := NewOpening(t, env);
        OutputsAreInert(rest, env);
        DollarBeforeValue(key, rest, env);
        assert [c] + Expand(t, env) == ['$'] + (Value(key, env) + Expand(rest, env));
      } else {
        ParseText(c, Expand(t, env));
      }
    }
  }

  lemma DollarBeforeValue(key: string, rest: string, env: Environment)
    requires IsEnvironment(env) && AllHarmless(env) && '}' !in key && Lookup(env, key).Some?
    requires AllInert(Parse(Expand(rest, env)), env)
    ensures AllInert(Parse(['$'] + (Value(key, env) + Expand(rest, env))), env)
  {
    var k := NameOf(key, env);
    Associative(['$'], env[k], ['{']);
    Associative(['$'], env[k], Expand(rest, env));
    SafePrefix(['$'] + env[k], Expand(rest, env), k, env);
  }

  /** A dollar sign gets an opening to complete only from the value of a placeholder right behind it. */
  lemma NewOpening(t: string, env: Environment) returns (key: string, rest: string)
    requires IsEnvironment(env) && AllHarmless(env)
    requires !Opens(['$'] + t, 0) && Opens(['$'] + Expand(t, env), 0)
    ensures '}' !in key && Lookup(env, key).Some? && |rest| < |t|
    ensures Expand(t, env) == Value(key, env) + Expand(rest, env)
  {
    var o := Expand(t, env);
    assert (['$'] + o)[1] == o[0] == '{';
    if Opens(t, 0) {
      key, rest := SplitPlaceholder(t);
      ExpandPlaceholder(key, rest, env);
    } else {
      assert t != "";
      assert t == [t[0]] + t[1..];
      ExpandText(t[0], t[1..], env);
      assert t[0] == '{';
      NoCloseAfterBrace(t);
      NoCloseNoChange(t, env);
      assert false;
    }
  }

  lemma NoCloseAfterBrace(t: string)
    requires t != "" && t[0] == '{' && !Opens(['$'] + t, 0)
    ensures '}' !in t
  {
    var u := ['$'] + t;
    NoCloseAhead(u, 2);
    assert t == [t[0]] + u[2..];
  }

  /** If every value is harmless, expanding twice is expanding once. */
  lemma HarmlessIsIdempotent(env: Environment)
    requires IsEnvironment(env) && AllHarmless(env)
    ensures Idempotent(env)
  {
    forall s ensures Expand(Expand(s, env), env) == Expand(s, env) {
      OutputsAreInert(s, env);
      InertIsFixed(Expand(s, env), env);
    }
  }

  // ----- harmful values break idempotence -----

  /** Names of the usual kind: no opening inside. */
  ghost predicate OrdinaryNames(env: Environment)
  {
    forall k :: Spelled(env, k) ==> NoOpening(k)
  }

  ghost predicate Breaks(s: string, env: Environment)
  {
    Expand(Expand(s, env), env) != Expand(s, env)
  }

  lemma {:induction false} CStrOfName(k: string)
    requires '\0' !in k
    ensures CStr(k) == k && CStr(k + ['\0']) == k
  {
    CStrPrefix(k, "");
    CStrPrefix(k, ['\0']);
    assert k + "" == k;
  }

  lemma ValueOfName(k: string, env: Environment)
    requires IsEnvironment(env) && Spelled(env, k)
    ensures Lookup(env, k) == Some(env[k]) && Lookup(env, k + ['\0']) == Some(env[k])
  {
    CStrOfName(k);
  }

  lemma ExpandQuoted(k: string, env: Environment)
    requires IsEnvironment(env) && Spelled(env, k)
    ensures Expand(Quoted(k), env) == env[k]
  {
    ValueOfName(k, env);
    ExpandPlaceholder(k, "", env);
    assert Quoted(k) + "" == Quoted(k) && env[k] + "" == env[k];
  }

  lemma PlainText(v: string, env: Environment)
    requires Plain(v)
    ensures Expand(v, env) == v
  {
    PlainPrefix(v, "", env);
    assert v + "" == v;
  }

  lemma ExpandThenText(k: string, y: string, env: Environment)
    requires IsEnvironment(env) && Spelled(env, k) && Plain(y)
    ensures Expand(Quoted(k) + y, env) == env[k] + y
    ensures Expand(['$'] + (Quoted(k) + y), env) == ['$'] + (env[k] + y)
  {
    ValueOfName(k, env);
    ExpandPlaceholder(k, y, env);
    PlainText(y, env);
    ExpandText('$', Quoted(k) + y, env);
  }

  /** A value that is a proper beginning of its own placeholder, be it empty, can be completed to the placeholder. */
  lemma BeginningBreaks(k: string, env: Environment) returns (s: string)
    requires IsEnvironment(env) && OrdinaryNames(env) && Spelled(env, k)
    requires env[k] <= Quoted(k) && env[k] != Quoted(k)
    ensures Breaks(s, env)
  {
    var n := |env[k]|;
    var rest := Quoted(k)[if n == 0 then 1 else n..];
    PlainRest(k, if n == 0 then 1 else n);
    ExpandThenText(k, rest, env);
    s := if n == 0 then ['$'] + (Quoted(k) + rest) else Quoted(k) + rest;
    assert Expand(s, env) == Quoted(k);
    ExpandQuoted(k, env);
  }

  lemma PlainRest(k: string, n: nat)
    requires NoOpening(k) && 1 <= n < |Quoted(k)|
    ensures Plain(Quoted(k)[n..])
  {
    var q, rest := Quoted(k), Quoted(k)[n..];
    assert q[|q| - 1] == '}';
    forall i | 0 <= i < |rest| - 1 ensures !(rest[i] == '$' && rest[i + 1] == '{') {
      assert rest[i] == q[n + i] && rest[i + 1] == q[n + i + 1];
      if 2 <= n + i < |q| - 2 {
        assert q[n + i] == k[n + i - 2] && q[n + i + 1] == k[n + i - 1];
      }
    }
  }

  lemma TextIsKept(z: string, env: Environment)
    requires z != "" && !Opens(z, 0)
    ensures Expand(z, env) != ""
  {
    assert z == [z[0]] + z[1..];
    ExpandText(z[0], z[1..], env);
  }

  lemma EmptyExpansion(z: string, env: Environment) returns (k: string)
    requires z != "" && Expand(z, env) == ""
    ensures Spelled(env, k) && env[k] == ""
  {
    if !Opens(z, 0) { TextIsKept(z, env); }
    var key, t := SplitPlaceholder(z);
    ExpandPlaceholder(key, t, env);
    k := NameOf(key, env);
  }

  /** A value that begins with its own placeholder and goes on keeps growing. */
  lemma ContinuationBreaks(k: string, env: Environment) returns (s: string)
    requires IsEnvironment(env) && OrdinaryNames(env) && Spelled(env, k)
    requires Quoted(k) <= env[k] && env[k] != Quoted(k)
    ensures Breaks(s, env)
  {
    var z := env[k][|Quoted(k)|..];
    assert env[k] == Quoted(k) + z;
    ValueOfName(k, env);
    ExpandPlaceholder(k, z, env);
    ExpandQuoted(k, env);
    if Expand(z, env) == "" {
      var empty := EmptyExpansion(z, env);
      s := BeginningBreaks(empty, env);
    } else {
      s := Quoted(k);
    }
  }

  lemma Comparable(a: string, b: string, c: string, d: string)
    requires a + b == c + d
    ensures a <= c || c <= a
  {
    assert a == (a + b)[..|a|] && c == (c + d)[..|c|];
    if |a| <= |c| {
      assert (c + d)[..|a|] == c[..|a|];
    } else {
      assert (a + b)[..|c|] == a[..|c|];
    }
  }

  lemma Cancel(a: string, b: string, c: string)
    requires a + b == a + c
    ensures b == c
  {
    assert b == (a + b)[|a|..] && c == (a + c)[|a|..];
  }

  /** A placeholder that is not inert: the text changes, or some other input breaks. */
  lemma ActiveChanges(key: string, t: string, env: Environment) returns (s: string)
    requires IsEnvironment(env) && OrdinaryNames(env) && '}' !in key && '\0' !in key && !Inert(key, env)
    ensures Expand(Quoted(key) + t, env) != Quoted(key) + t || Breaks(s, env)
  {
    s := "";
    CStrOfName(key);
    ExpandPlaceholder(key, t, env);
    if Expand(Quoted(key) + t, env) == Quoted(key) + t {
      Comparable(env[key], Expand(t, env), Quoted(key), t);
      if env[key] <= Quoted(key) {
        s := BeginningBreaks(key, env);
      } else {
        s := ContinuationBreaks(key, env);
      }
    }
  }

  /** An opening that a name extends can be completed to a placeholder that is not inert. */
  lemma CompletedChanges(x: string, env: Environment) returns (y: string)
    requires IsEnvironment(env) && OrdinaryNames(env) && '}' !in x && Extendable(x, env)
    ensures Plain(y) && Expand(['$'] + (['{'] + (x + y)), env) != ['$'] + (['{'] + (x + y))
  {
    var k :| Spelled(env, k) && x <= k;
    var key := k + ['\0'];
    y := k[|x|..] + ['\0', '}'];
    assert NoOpening(k);
    CompletionIsPlain(k, |x|);
    assert ['$'] + (['{'] + (x + y)) == Quoted(key) + "";
    ValueOfName(k, env);
    ExpandPlaceholder(key, "", env);
    assert '\0' in Quoted(key) + "" by { assert (Quoted(key) + "")[|k| + 2] == '\0'; }
    assert env[k] + "" == env[k];
  }

  lemma CompletionIsPlain(k: string, n: nat)
    requires NoOpening(k) && n <= |k|
    ensures Plain(k[n..] + ['\0', '}'])
  {
    var y := k[n..] + ['\0', '}'];
    forall i | 0 <= i < |y| - 1 ensures !(y[i] == '$' && y[i + 1] == '{') {
      if i < |k| - n - 1 {
        assert y[i] == k[n + i] && y[i + 1] == k[n + i + 1];
      }
    }
  }

  /** An unsafe text changes once it is completed suitably, or some other input breaks. */
  lemma {:induction false} UnsafeChanges(u: string, env: Environment) returns (y: string, s: string)
    requires IsEnvironment(env) && OrdinaryNames(env) && '\0' !in u && !SafeText(u, env)
    ensures Plain(y) && (Expand(u + y, env) != u + y || Breaks(s, env))
    decreases |u|
  {
    y, s := "", "";
    if Opens(u, 0) {
      var key, t := SplitPlaceholder(u);
      SafeAfterPlaceholder(key, t, env);
      if Inert(key, env) {
        y, s := UnsafeChanges(t, env);
        ChangeBehindPlaceholder(key, t, y, env);
      } else {
        s := ActiveChanges(key, t, env);
        assert u + "" == Quoted(key) + t;
      }
    } else if StartsOpening(u) {
      var x := SplitUnclosed(u);
      SafeUnclosed(x, env);
      y := CompletedChanges(x, env);
      Associative(['{'], x, y);
      Associative(['$'], ['{'] + x, y);
    } else if u != "" {
      assert u == [u[0]] + u[1..];
      SafeAfterText(u[0], u[1..], env);
      y, s := UnsafeChanges(u[1..], env);
      ChangeBehindText(u[0], u[1..], y, env);
    }
  }

  lemma ChangeBehindPlaceholder(key: string, t: string, y: string, env: Environment)
    requires '}' !in key && Inert(key, env)
    ensures Expand(t + y, env) != t + y ==> Expand((Quoted(key) + t) + y, env) != (Quoted(key) + t) + y
  {
    Associative(Quoted(key), t, y);
    ExpandPlaceholder(key, t + y, env);
    if Expand((Quoted(key) + t) + y, env) == (Quoted(key) + t) + y {
      Cancel(Quoted(key), Expand(t + y, env), t + y);
    }
  }

  lemma ChangeBehindText(c: char, t: string, y: string, env: Environment)
    requires !StartsOpening([c] + t) && t != ""
    ensures Expand(t + y, env) != t + y ==> Expand(([c] + t) + y, env) != ([c] + t) + y
  {
    Associative([c], t, y);
    assert ([c] + t)[1] == t[0] == (t + y)[0] == ([c] + (t + y))[1];
    ExpandText(c, t + y, env);
    if Expand(([c] + t) + y, env) == ([c] + t) + y {
      Cancel([c], Expand(t + y, env), t + y);
    }
  }

  /** A value that is not harmless breaks idempotence somewhere. */
  lemma HarmfulBreaks(k: string, env: Environment) returns (s: string)
    requires IsEnvironment(env) && OrdinaryNames(env) && Spelled(env, k) && !Harmless(env[k], env)
    ensures Breaks(s, env)
  {
    var v := env[k];
    assert v + "" == v;
    if !SafeText(v, env) || !SafeText(['$'] + v, env) {
      s := HarmfulBefore(k, "", env);
    } else {
      s := HarmfulBefore(k, ['{'], env);
    }
  }

  lemma HarmfulBefore(k: string, r: string, env: Environment) returns (s: string)
    requires IsEnvironment(env) && OrdinaryNames(env) && Spelled(env, k) && (r == "" || r == ['{'])
    requires !SafeText(env[k] + r, env) || !SafeText(['$'] + (env[k] + r), env)
    ensures Breaks(s, env)
  {
    var v := env[k];
    var y;
    if !SafeText(v + r, env) {
      y, s := UnsafeChanges(v + r, env);
      if !Breaks(s, env) {
        PlainAfter(r, y);
        ExpandThenText(k, r + y, env);
        Associative(v, r, y);
        s := Quoted(k) + (r + y);
      }
    } else {
      y, s := UnsafeChanges(['$'] + (v + r), env);
      if !Breaks(s, env) {
        PlainAfter(r, y);
        ExpandThenText(k, r + y, env);
        Associative(v, r, y);
        Associative(['$'], v + r, y);
        s := ['$'] + (Quoted(k) + (r + y));
      }
    }
  }

  lemma PlainAfter(r: string, y: string)
    requires (r == "" || r == ['{']) && Plain(y)
    ensures Plain(r + y)
  {
    forall i | 0 <= i < |r + y| - 1 ensures !((r + y)[i] == '$' && (r + y)[i + 1] == '{') {
      if i >= |r| {
        assert (r + y)[i] == y[i - |r|] && (r + y)[i + 1] == y[i - |r| + 1];
      }
    }
  }

  /** Expanding twice is expanding once, for all inputs, iff every value is harmless. */
  lemma IdempotentIff(env: Environment)
    requires IsEnvironment(env) && OrdinaryNames(env)
    ensures Idempotent(env) <==> AllHarmless(env)
  {
    if AllHarmless(env) {
      HarmlessIsIdempotent(env);
    } else {
      var k :| Spelled(env, k) && !Harmless(env[k], env);
      var s := HarmfulBreaks(k, env);
    }
  }

  // ----- what harmless means for common values -----

  lemma {:induction false} NoOpeningIsSafe(u: string, env: Environment)
    requires NoOpening(u)
    ensures SafeText(u, env)
  {
    if u != "" {
      var t := u[1..];
      assert u == [u[0]] + t;
      forall i | 0 <= i < |t| - 1 ensures !(t[i] == '$' && t[i + 1] == '{') {
        assert !(u[i + 1] == '$' && u[i + 2] == '{');
      }
      NoOpeningIsSafe(t, env);
      SafeAfterText(u[0], t, env);
    }
  }

  /** A value without opening braces is harmless iff it is not empty and does not end with a dollar sign. */
  lemma BracelessIsHarmlessIff(v: string, k: string, env: Environment)
    requires Spelled(env, k) && '{' !in v
    ensures Harmless(v, env) <==> v != "" && v[|v| - 1] != '$'
  {
    var d := ['$'] + v;
    NoOpeningIsSafe(v, env);
    NoOpeningIsSafe(d, env);
    Associative(['$'], v, ['{']);
    if v == "" {
      EmptyIsUnsafe(k, env);
      assert ['$'] + (v + ['{']) == ['$'] + (['{'] + "");
    } else if v[|v| - 1] == '$' {
      var p := v[..|v| - 1];
      assert v == p + ['$'] && v + ['{'] == p + (['$'] + (['{'] + ""));
      EmptyIsUnsafe(k, env);
      UnsafeBehind(p, ['$'] + (['{'] + ""), env);
    } else {
      assert NoOpening(v + ['{']);
      assert NoOpening(d + ['{']) by { assert (d + ['{'])[|d| - 1] == v[|v| - 1]; }
      NoOpeningIsSafe(v + ['{'], env);
      NoOpeningIsSafe(d + ['{'], env);
    }
  }

  lemma EmptyIsUnsafe(k: string, env: Environment)
    requires Spelled(env, k)
    ensures !SafeText(['$'] + (['{'] + ""), env)
  {
    SafeUnclosed("", env);
    AnyNameExtendsNothing(k, env);
  }

  lemma {:induction false} UnsafeBehind(p: string, u: string, env: Environment)
    requires '{' !in p && StartsOpening(u) && !SafeText(u, env)
    ensures !SafeText(p + u, env)
  {
    if p == "" {
      assert p + u == u;
    } else {
      assert p + u == [p[0]] + (p[1..] + u);
      UnsafeBehind(p[1..], u, env);
      assert (p + u)[1] == if |p| > 1 then p[1] else '$';
      SafeAfterText(p[0], p[1..] + u, env);
    }
  }

  /** A value of an opening brace and plain text is harmless iff the text is the start of no name. */
  lemma OpenBraceIsHarmlessIff(x: string, env: Environment)
    requires '{' !in x && '}' !in x && '$' !in x
    ensures Harmless(['{'] + x, env) <==> !Extendable(x, env)
  {
    var v := ['{'] + x;
    NoOpeningIsSafe(v, env);
    NoOpeningIsSafe(v + ['{'], env);
    SafeUnclosed(x, env);
    SafeUnclosed(x + ['{'], env);
    Associative(['{'], x, ['{']);
    if Extendable(x + ['{'], env) {
      var k :| Spelled(env, k) && x + ['{'] <= k;
      assert x <= k;
    }
  }

  /** If the brace is closed again, it is harmless iff the name in between is unset or its value quotes it. */
  lemma BracePairIsHarmlessIff(x: string, env: Environment)
    requires '{' !in x && '}' !in x && '$' !in x
    ensures Harmless(['{'] + (x + ['}']), env) <==> Inert(x, env)
  {
    var v := ['{'] + (x + ['}']);
    NoOpeningIsSafe(v, env);
    NoOpeningIsSafe(v + ['{'], env);
    NoOpeningIsSafe("", env);
    NoOpeningIsSafe(['{'], env);
    SafeAfterPlaceholder(x, "", env);
    SafeAfterPlaceholder(x, ['{'], env);
    assert ['$'] + v == Quoted(x) + "";
    assert ['$'] + (v + ['{']) == Quoted(x) + ['{'];
  }

  /** The promised case: non-empty values without dollar signs and opening braces. */
  lemma CleanIsIdempotent(env: Environment)
    requires IsEnvironment(env)
    requires forall k :: Spelled(env, k) ==> env[k] != "" && '$' !in env[k] && '{' !in env[k]
    ensures Idempotent(env)
  {
    forall k | Spelled(env, k) ensures Harmless(env[k], env) {
      BracelessIsHarmlessIff(env[k], k, env);
    }
    HarmlessIsIdempotent(env);
  }

  /** For values without opening braces, the whole condition. */
  lemma BracelessIdempotentIff(env: Environment)
    requires IsEnvironment(env) && OrdinaryNames(env) && forall k :: Spelled(env, k) ==> '{' !in env[k]
    ensures Idempotent(env) <==> forall k :: Spelled(env, k) ==> env[k] != "" && env[k][|env[k]| - 1] != '$'
  {
    IdempotentIff(env);
    forall k | Spelled(env, k) ensures Harmless(env[k], env) <==> env[k] != "" && env[k][|env[k]| - 1] != '$' {
      BracelessIsHarmlessIff(env[k], k, env);
    }
  }
}
