/** src/app/api/open-url/route.ts: the checks on the URL and the command
    line handed to the shell. The `exec` itself is not modelled; what the
    shell makes of the command is `Unquote`, the reading of a double-quoted
    word by a POSIX shell. */
module OpenUrl {
  import opened Wrappers
  import opened Text
  import opened JsonValues

  const UrlRequired := "URL is required"
  const InvalidScheme := "Invalid URL scheme"
  const OpenFailed := "Failed to open URL"

  /** The characters a backslash escapes inside double quotes, newline aside. */
  predicate Escapable(c: char) {
    c == '$' || c == '`' || c == '"' || c == '\\'
  }

  /** The characters that end literal text inside double quotes. */
  predicate Unquoted(c: char) {
    c == '$' || c == '`' || c == '"'
  }

  /** What the shell makes of the text between the double quotes of a word:
      `Some(t)` when it stands for the literal text `t`, `None` when it
      starts an expansion (an unescaped `$` or backquote; any `$` is counted,
      although the shell keeps a `$` that no name or bracket follows) or
      ends the quoting early (an unescaped `"`, or a final `\` that escapes
      the closing quote). Inside double quotes a backslash escapes only `$`,
      backquote, `"`, `\` and newline, and an escaped newline disappears. */
  function Unquote(s: string): Option<string>
    decreases |s|
  {
    if s == [] then Some([])
    else if s[0] == '\\' && |s| == 1 then None
    else if s[0] == '\\' && s[1] == '\n' then Unquote(s[2..])
    else if s[0] == '\\' && Escapable(s[1]) then Prepend(s[1], Unquote(s[2..]))
    else if Unquoted(s[0]) then None
    else Prepend(s[0], Unquote(s[1..]))
  }

  function Prepend(c: char, o: Option<string>): Option<string> {
    if o.Some? then Some([c] + o.value) else None
  }

  /** `url.replace(/"/g, '\\"')`: every double quote gets a backslash before it. */
  function EscapeQuotes(s: string): (r: string)
    ensures |r| >= |s|
  {
    if s == [] then []
    else if s[0] == '"' then ['\\', '"'] + EscapeQuotes(s[1..])
    else [s[0]] + EscapeQuotes(s[1..])
  }

  /** Every double quote of the escaped URL has a backslash before it, so
      none can close the quoted word. */
  lemma {:induction false} EscapeQuotesGuarded(s: string)
    ensures var r := EscapeQuotes(s);
      forall i :: 0 <= i < |r| && r[i] == '"' ==> 0 < i && r[i - 1] == '\\'
  {
    if s != [] {
      EscapeQuotesGuarded(s[1..]);
    }
  }

  /** The characters the shell still interprets after `EscapeQuotes`. */
  predicate ShellSpecial(c: char) {
    c == '$' || c == '`' || c == '\\'
  }

  /** On a URL without `$`, backquote or backslash the escape works: the
      shell reads back exactly the URL. */
  lemma {:induction false} EscapeQuotesPlain(s: string)
    requires forall i :: 0 <= i < |s| ==> !ShellSpecial(s[i])
    ensures Unquote(EscapeQuotes(s)) == Some(s)
  {
    if s != [] {
      EscapeQuotesPlain(s[1..]);
      var rest := EscapeQuotes(s[1..]);
      if s[0] == '"' {
        assert (['\\', '"'] + rest)[2..] == rest;
      } else {
        assert ([s[0]] + rest)[1..] == rest;
      }
      assert [s[0]] + s[1..] == s;
    }
  }

  /** Text without double quotes is left as it is. */
  lemma {:induction false} EscapeQuotesNoQuote(s: string)
    requires forall i :: 0 <= i < |s| ==> s[i] != '"'
    ensures EscapeQuotes(s) == s
  {
    if s != [] {
      EscapeQuotesNoQuote(s[1..]);
      assert [s[0]] + s[1..] == s;
    }
  }

  lemma {:induction false} EscapeQuotesConcat(a: string, b: string)
    ensures EscapeQuotes(a + b) == EscapeQuotes(a) + EscapeQuotes(b)
  {
    if a == [] {
      assert a + b == b;
    } else {
      var rest := a[1..] + b;
      assert a + b == [a[0]] + rest;
      assert a == [a[0]] + a[1..];
      EscapeQuotesConcat(a[1..], b);
      EscapeQuotesCons(a[0], rest);
      EscapeQuotesCons(a[0], a[1..]);
    }
  }

  /** The escape of a string is the escape of its first character followed by the rest's. */
  lemma EscapeQuotesCons(c: char, s: string)
    ensures EscapeQuotes([c] + s) == EscapeQuotes([c]) + EscapeQuotes(s)
  {
    var t := [c] + s;
    assert t[0] == c && t[1..] == s;
    assert [c][1..] == [];
  }

  /** Characters that read back as themselves before a word. */
  predicate Plain(c: char) {
    !Unquoted(c) && c != '\\'
  }

  /** Plain characters before a word are read back as themselves. */
  lemma {:induction false} UnquotePrefix(a: string, b: string)
    requires forall i :: 0 <= i < |a| ==> Plain(a[i])
    ensures Unquote(a + b) == if Unquote(b).Some? then Some(a + Unquote(b).value) else None
  {
    if a == [] {
      assert a + b == b;
      if Unquote(b).Some? {
        assert a + Unquote(b).value == Unquote(b).value;
      }
    } else {
      var ab := a + b;
      assert ab[0] == a[0] && Plain(a[0]);
      assert ab[1..] == a[1..] + b;
      assert Unquote(ab) == Prepend(a[0], Unquote(a[1..] + b));
      UnquotePrefix(a[1..], b);
      if Unquote(b).Some? {
        assert [a[0]] + (a[1..] + Unquote(b).value) == a + Unquote(b).value;
      }
    }
  }

  /** A `$` after plain text survives `EscapeQuotes`, and the shell expands it. */
  lemma EscapeQuotesDollar(a: string, b: string)
    requires forall i :: 0 <= i < |a| ==> Plain(a[i])
    ensures Unquote(EscapeQuotes(a + "$" + b)) == None
  {
    EscapeQuotesConcat(a, "$" + b);
    EscapeQuotesNoQuote(a);
    var t := EscapeQuotes(b);
    assert EscapeQuotes("$" + b) == "$" + t by {
      assert ("$" + b)[0] == '$' && ("$" + b)[1..] == b;
    }
    assert a + "$" + b == a + ("$" + b);
    UnquotePrefix(a, "$" + t);
    assert Unquote("$" + t) == None;
  }

  /** The escape the shell needs inside double quotes: a backslash before
      each `\`, `"`, `$` and backquote. */
  function EscapeShell(s: string): (r: string)
    ensures |r| >= |s|
  {
    if s == [] then []
    else if Escapable(s[0]) then ['\\', s[0]] + EscapeShell(s[1..])
    else [s[0]] + EscapeShell(s[1..])
  }

  /** Every double quote, `$` and backquote of the corrected escape has a
      backslash before it, so the shell neither ends the word nor expands. */
  lemma {:induction false} EscapeShellGuarded(s: string)
    ensures var r := EscapeShell(s);
      forall i :: 0 <= i < |r| && r[i] in "\"$`" ==> 0 < i && r[i - 1] == '\\'
  {
    if s != [] {
      EscapeShellGuarded(s[1..]);
    }
  }

  /** After the corrected escape the shell reads back exactly the URL, whatever it holds. */
  lemma {:induction false} EscapeShellRoundTrip(s: string)
    ensures Unquote(EscapeShell(s)) == Some(s)
  {
    if s != [] {
      EscapeShellRoundTrip(s[1..]);
      var rest := EscapeShell(s[1..]);
      if Escapable(s[0]) {
        assert (['\\', s[0]] + rest)[2..] == rest;
      } else {
        assert ([s[0]] + rest)[1..] == rest;
      }
      assert [s[0]] + s[1..] == s;
    }
  }

  /** Where the plain escape is already enough, the corrected one gives the same command. */
  lemma {:induction false} EscapeShellAgrees(s: string)
    requires forall i :: 0 <= i < |s| ==> !ShellSpecial(s[i])
    ensures EscapeShell(s) == EscapeQuotes(s)
  {
    if s != [] {
      EscapeShellAgrees(s[1..]);
    }
  }

  /** The route's answer: the command it runs, or an error status and message. */
  datatype Outcome = Opened(command: string) | Refused(status: int, error: string)

  /** The response body of an outcome. */
  function ReplyBody(o: Outcome): Json {
    match o
    case Opened(_) => JObj(map["success" := JBool(true)])
    case Refused(_, e) => JObj(map["error" := JStr(e)])
  }

  /** The `url` property when it is a non-empty string. */
  function UrlOf(body: Json): (r: Option<string>)
    ensures r.Some? <==> IsString(Prop(body, "url")) && Prop(body, "url").value.s != ""
    ensures r.Some? ==> Prop(body, "url") == Some(JStr(r.value))
  {
    var url := Prop(body, "url");
    if IsString(url) && url.value.s != "" then Some(url.value.s) else None
  }

  predicate HttpScheme(url: string) {
    StartsWith(url, "http://") || StartsWith(url, "https://")
  }

  /** `POST` with a body that parsed to `body` (`None`: `request.json()`
      rejected), with `escape` applied inside the quotes; destructuring `null`
      throws. The route as written uses `EscapeQuotes`. */
  function Handle(body: Option<Json>, escape: string -> string): (r: Outcome)
    ensures body.None? || body.value.JNull? ==> r == Refused(500, OpenFailed)
    ensures body.Some? && !body.value.JNull? && UrlOf(body.value).None? ==> r == Refused(400, UrlRequired)
    ensures body.Some? && !body.value.JNull? && UrlOf(body.value).Some? && !HttpScheme(UrlOf(body.value).value) ==>
              r == Refused(400, InvalidScheme)
    ensures r.Opened? <==> body.Some? && !body.value.JNull? && UrlOf(body.value).Some? && HttpScheme(UrlOf(body.value).value)
    ensures r.Opened? ==> r.command == "open \"" + escape(UrlOf(body.value).value) + "\""
  {
    if body.None? || body.value.JNull? then Refused(500, OpenFailed)
    else
      var url := UrlOf(body.value);
      if url.None? then Refused(400, UrlRequired)
      else if !HttpScheme(url.value) then Refused(400, InvalidScheme)
      else Opened("open \"" + escape(url.value) + "\"")
  }

  /** Every command the route runs with the corrected escape opens exactly the URL it was given. */
  lemma OpenUrlFixedQuotes(body: Option<Json>)
    ensures Handle(body, EscapeShell).Opened? ==>
      exists e :: Handle(body, EscapeShell).command == "open \"" + e + "\"" && Unquote(e) == UrlOf(body.value)
  {
    if Handle(body, EscapeShell).Opened? {
      var u := UrlOf(body.value).value;
      EscapeShellRoundTrip(u);
    }
  }

  /** A URL that passes both checks and holds a command substitution. */
  const InjectingUrl := "http://x/$(touch pwned)"

  lemma InjectingUrlShape()
    ensures InjectingUrl == "http://x/" + "$" + "(touch pwned)"
    ensures HttpScheme(InjectingUrl)
    ensures forall i :: 0 <= i < |"http://x/"| ==> Plain("http://x/"[i])
  {
    assert InjectingUrl[..7] == "http://";
  }

  /** The shell does not read the escaped injecting URL back as it was. */
  lemma InjectingUrlExpands()
    ensures Unquote(EscapeQuotes(InjectingUrl)) == None
  {
    InjectingUrlShape();
    EscapeQuotesDollar("http://x/", "(touch pwned)");
  }

  /** The route as written accepts a URL whose command the shell expands. */
  lemma OpenUrlInjects()
    ensures var r := Handle(Some(JObj(map["url" := JStr(InjectingUrl)])), EscapeQuotes);
      r.Opened? && r.command == "open \"" + EscapeQuotes(InjectingUrl) + "\""
      && Unquote(EscapeQuotes(InjectingUrl)) == None
  {
    var body := JObj(map["url" := JStr(InjectingUrl)]);
    assert Prop(body, "url") == Some(JStr(InjectingUrl));
    assert HttpScheme(InjectingUrl) by {
      InjectingUrlShape();
    }
    InjectingUrlExpands();
  }
}
