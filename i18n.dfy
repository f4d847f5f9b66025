/** Localisation: `{name}` placeholder interpolation, message lookup with
    fallback from the active locale to English to the key itself, the text
    direction of a locale, and the check on a stored locale code. The
    message tables are a parameter. */
module I18n {
  import opened Types

  datatype Locale = En | Ar

  datatype Direction = Ltr | Rtl

  /** A value substituted for a placeholder: a string or an integer. */
  datatype Value = Text(text: string) | Number(n: int)

  datatype Messages = Messages(en: map<string, string>, ar: map<string, string>)

  // ---------------------------------------------------------------------
  // Locale codes and direction

  /** The code stored for a locale. */
  function Code(l: Locale): string {
    match l
    case En => "en"
    case Ar => "ar"
  }

  /** The locale to start in, given the stored code (if any): only "en"
      and "ar" are accepted, anything else means English. */
  function InitialLocale(stored: Option<string>): (r: Locale)
    ensures r == Ar <==> stored == Some("ar")
  {
    if stored == Some("en") then En
    else if stored == Some("ar") then Ar
    else En
  }

  /** A locale stored by its code is read back as that locale. */
  lemma InitialLocaleRoundTrip(l: Locale)
    ensures InitialLocale(Some(Code(l))) == l
  {
  }

  function DirOf(l: Locale): (r: Direction)
    ensures r == Rtl <==> l == Ar
  {
    if l == Ar then Rtl else Ltr
  }

  // ---------------------------------------------------------------------
  // Interpolation

  /** A character matched by the regular-expression class `\w`. */
  predicate IsWordChar(c: char) {
    ('a' <= c <= 'z') || ('A' <= c <= 'Z') || ('0' <= c <= '9') || c == '_'
  }

  predicate IsWord(w: string) {
    |w| > 0 && forall i :: 0 <= i < |w| ==> IsWordChar(w[i])
  }

  /** The length of the longest run of word characters at the start of `s`. */
  function WordPrefix(s: string): (n: nat)
    ensures n <= |s|
  {
    if s == [] || !IsWordChar(s[0]) then 0 else 1 + WordPrefix(s[1..])
  }

  /** The run is made of word characters and is as long as it can be. */
  lemma {:induction false} WordPrefixMaximal(s: string)
    ensures forall i :: 0 <= i < WordPrefix(s) ==> IsWordChar(s[i])
    ensures WordPrefix(s) < |s| ==> !IsWordChar(s[WordPrefix(s)])
  {
    if s != [] && IsWordChar(s[0]) {
      WordPrefixMaximal(s[1..]);
      forall i | 0 < i < WordPrefix(s) ensures IsWordChar(s[i]) {
        assert s[i] == s[1..][i - 1];
      }
    }
  }

  /** The name of the `{name}` token that `s` starts with, if it starts with one. */
  function TokenAt(s: string): (r: Option<string>)
    ensures r.Some? ==> 0 < |r.value| && |r.value| + 2 <= |s|
  {
    if |s| > 0 && s[0] == '{' then
      var w := WordPrefix(s[1..]);
      if 0 < w && w + 1 < |s| && s[w + 1] == '}' then Some(s[1..w + 1]) else None
    else None
  }

  /** A token found is a word between braces. */
  lemma TokenAtShape(s: string)
    ensures TokenAt(s).Some? ==>
      var w := TokenAt(s).value;
      IsWord(w) && s[..|w| + 2] == "{" + w + "}"
  {
    if TokenAt(s).Some? {
      var w := TokenAt(s).value;
      WordPrefixMaximal(s[1..]);
      assert forall i :: 0 <= i < |w| ==> w[i] == s[1..][i];
      assert s[..|w| + 2] == "{" + w + "}";
    }
  }

  /** A string that starts with a token is that token followed by the rest. */
  lemma TokenAtSplit(s: string)
    ensures TokenAt(s).Some? ==>
      var w := TokenAt(s).value;
      s == "{" + w + "}" + s[|w| + 2..]
  {
    TokenAtShape(s);
    if TokenAt(s).Some? {
      var w := TokenAt(s).value;
      assert s == s[..|w| + 2] + s[|w| + 2..];
    }
  }

  /** `String(n)` for an integer. */
  function Decimal(n: int): string
    decreases if n < 0 then 1 - n else n
  {
    if n < 0 then "-" + Decimal(-n)
    else if n < 10 then ["0123456789"[n]]
    else Decimal(n / 10) + ["0123456789"[n % 10]]
  }

  function ValueText(v: Value): string {
    match v
    case Text(s) => s
    case Number(n) => Decimal(n)
  }

  /** What a token named `name` becomes: its value, or the token itself
      when there is none. */
  function Substitute(vars: map<string, Value>, name: string): string {
    if name in vars then ValueText(vars[name]) else "{" + name + "}"
  }

  /** One left-to-right pass of the global replace: a token is replaced
      and scanning resumes after it; any other character is copied. */
  function Scan(s: string, vars: map<string, Value>): string
    decreases |s|
  {
    if s == [] then ""
    else match TokenAt(s)
      case Some(name) => Substitute(vars, name) + Scan(s[|name| + 2..], vars)
      case None => [s[0]] + Scan(s[1..], vars)
  }

  function Interpolate(template: string, vars: Option<map<string, Value>>): string {
    if vars.None? then template else Scan(template, vars.value)
  }

  /** Without variables the template comes back unchanged. */
  lemma InterpolateWithoutVars(template: string)
    ensures Interpolate(template, None) == template
  {
  }

  /** With no values at all, every token is kept as written. */
  lemma {:induction false} InterpolateEmptyVars(s: string)
    ensures Interpolate(s, Some(map[])) == s
    decreases |s|
  {
    if s != [] {
      match TokenAt(s)
      case Some(name) =>
        TokenAtShape(s);
        assert s == s[..|name| + 2] + s[|name| + 2..];
        InterpolateEmptyVars(s[|name| + 2..]);
      case None =>
        assert s == [s[0]] + s[1..];
        InterpolateEmptyVars(s[1..]);
    }
  }

  /** A character other than an opening brace is copied. */
  lemma ScanPlainChar(c: char, rest: string, vars: map<string, Value>)
    requires c != '{'
    ensures Scan([c] + rest, vars) == [c] + Scan(rest, vars)
  {
    assert ([c] + rest)[0] == c && ([c] + rest)[1..] == rest;
    assert TokenAt([c] + rest) == None;
  }

  /** Text without an opening brace is copied as it is. */
  lemma {:induction false} ScanPlainText(a: string, b: string, vars: map<string, Value>)
    requires '{' !in a
    ensures Scan(a + b, vars) == a + Scan(b, vars)
    decreases |a|
  {
    if a == [] {
      assert a + b == b;
    } else {
      var c, tail := a[0], a[1..];
      assert a + b == [c] + (tail + b) && a == [c] + tail;
      ScanPlainChar(c, tail + b, vars);
      ScanPlainText(tail, b, vars);
    }
  }

  /** An opening brace that does not start a `{word}` token is copied like
      any other character, and scanning goes on right after it. */
  lemma ScanStrayBrace(s: string, vars: map<string, Value>)
    requires |s| > 0 && s[0] == '{'
    requires forall w, rest :: IsWord(w) ==> s != "{" + w + "}" + rest
    ensures Scan(s, vars) == "{" + Scan(s[1..], vars)
  {
    TokenAtSplit(s);
    TokenAtShape(s);
    var w := TokenAt(s).GetOr("");
    var rest := if |w| + 2 <= |s| then s[|w| + 2..] else [];
    assert IsWord(w) ==> s != "{" + w + "}" + rest;
    assert [s[0]] == "{";
  }

  /** The example of a doubled brace: the outer braces stay, the inner
      token is replaced. */
  lemma DoubledBraceExample()
    ensures Interpolate("{{a}}", Some(map["a" := Text("x")])) == "{x}"
  {
    var vars := map["a" := Text("x")];
    var s := "{{a}}";
    forall w, rest | IsWord(w) ensures s != "{" + w + "}" + rest {
      assert ("{" + w + "}" + rest)[1] == w[0];
      assert IsWordChar(w[0]) && !IsWordChar(s[1]);
    }
    ScanStrayBrace(s, vars);
    assert s[1..] == "{" + "a" + "}" + "}";
    assert IsWord("a");
    ScanToken("a", "}", vars);
    ScanPlainText("}", "", vars);
    assert "}" + "" == "}";
  }

  /** A token is replaced by its value, verbatim, and scanning goes on
      after the token: the value itself is not scanned again. */
  lemma ScanToken(w: string, rest: string, vars: map<string, Value>)
    requires IsWord(w)
    ensures Scan("{" + w + "}" + rest, vars) == Substitute(vars, w) + Scan(rest, vars)
  {
    var s := "{" + w + "}" + rest;
    assert s[1..] == w + ("}" + rest);
    WordPrefixOfWord(w, "}" + rest);
    assert s[|w| + 1] == '}';
    assert s[1..|w| + 1] == w;
    assert TokenAt(s) == Some(w);
    assert s[|w| + 2..] == rest;
  }

  lemma {:induction false} WordPrefixOfWord(w: string, rest: string)
    requires forall i :: 0 <= i < |w| ==> IsWordChar(w[i])
    requires rest == [] || !IsWordChar(rest[0])
    ensures WordPrefix(w + rest) == |w|
  {
    if w == [] {
      assert w + rest == rest;
    } else {
      assert (w + rest)[1..] == w[1..] + rest;
      WordPrefixOfWord(w[1..], rest);
    }
  }

  /** Text before the first token is kept, the token is replaced, and the
      rest is interpolated on its own. */
  lemma InterpolateSplice(a: string, w: string, b: string, vars: map<string, Value>)
    requires '{' !in a && IsWord(w)
    ensures Interpolate(a + "{" + w + "}" + b, Some(vars)) == a + Substitute(vars, w) + Interpolate(b, Some(vars))
  {
    var token := "{" + w + "}" + b;
    var sub := Substitute(vars, w);
    assert a + "{" + w + "}" + b == a + token;
    assert Scan(a + token, vars) == a + Scan(token, vars) by {
      ScanPlainText(a, token, vars);
    }
    assert Scan(token, vars) == sub + Scan(b, vars) by {
      ScanToken(w, b, vars);
    }
    assert a + (sub + Scan(b, vars)) == a + sub + Scan(b, vars);
  }

  /** A substituted value that looks like a token stays as it is. */
  lemma NoRescanExample()
    ensures Interpolate("{a}", Some(map["a" := Text("{b}"), "b" := Text("x")])) == "{b}"
  {
    var vars := map["a" := Text("{b}"), "b" := Text("x")];
    assert IsWord("a");
    ScanToken("a", "", vars);
    assert "{" + "a" + "}" + "" == "{a}";
  }

  /** An empty string is a value (only a missing one keeps the token). */
  lemma EmptyValueExample()
    ensures Interpolate("x{a}y", Some(map["a" := Text("")])) == "xy"
  {
    var vars := map["a" := Text("")];
    assert IsWord("a");
    InterpolateSplice("x", "a", "y", vars);
    assert "x" + "{" + "a" + "}" + "y" == "x{a}y";
    ScanPlainText("y", "", vars);
    assert "y" + "" == "y";
  }

  // ---------------------------------------------------------------------
  // Lookup

  function MessagesFor(m: Messages, l: Locale): map<string, string> {
    match l
    case En => m.en
    case Ar => m.ar
  }

  /** The active locale's message, else the English one, else the key. */
  function Lookup(m: Messages, l: Locale, key: string): (r: string)
    ensures key in MessagesFor(m, l) ==> r == MessagesFor(m, l)[key]
    ensures key !in MessagesFor(m, l) && key in m.en ==> r == m.en[key]
    ensures key !in MessagesFor(m, l) && key !in m.en ==> r == key
  {
    if key in MessagesFor(m, l) then MessagesFor(m, l)[key]
    else if key in m.en then m.en[key]
    else key
  }

  /** A key missing from the Arabic messages shows exactly what English shows. */
  lemma ArabicFallsBackToEnglish(m: Messages, key: string)
    requires key !in m.ar
    ensures Lookup(m, Ar, key) == Lookup(m, En, key)
  {
  }

  function Translate(m: Messages, l: Locale, key: string, vars: Option<map<string, Value>>): string {
    Interpolate(Lookup(m, l, key), vars)
  }

  class I18nState {
    var locale: Locale
    const messages: Messages

    constructor (stored: Option<string>, messages: Messages)
      ensures locale == InitialLocale(stored) && this.messages == messages
    {
      locale := InitialLocale(stored);
      this.messages := messages;
    }

    function Dir(): (r: Direction)
      reads this
      ensures r == Rtl <==> locale == Ar
    {
      DirOf(locale)
    }

    method SetLocale(next: Locale)
      modifies this
      ensures locale == next
    {
      locale := next;
    }

    function T(key: string, vars: Option<map<string, Value>>): string
      reads this
    {
      Translate(messages, locale, key, vars)
    }
  }
}
