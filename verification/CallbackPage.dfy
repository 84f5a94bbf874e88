/** The page the provider's redirect lands on: a hidden form carrying `code` and `state` to the
    completion route, and what a browser reads out of it. */
module CallbackPage {
  import opened Outcomes
  import opened Strings
  import opened FormParser
  import opened StateToken

  // ---------------------------------------------------------------- escaping

  /** `str::replace` of one character. */
  function Replace(s: string, c: char, sub: string): string {
    if s == "" then "" else (if s[0] == c then sub else [s[0]]) + Replace(s[1..], c, sub)
  }

  /** Five replacements in turn; the ampersand must go first. */
  function HtmlEscape(s: string): string {
    var tagless := Replace(Replace(Replace(s, '&', "&amp;"), '<', "&lt;"), '>', "&gt;");
    Replace(Replace(tagless, '\"', "&quot;"), '\'', "&#39;")
  }

  /** One character, escaped. */
  function EscapeOf(c: char): string {
    match c
    case '&' => "&amp;"
    case '<' => "&lt;"
    case '>' => "&gt;"
    case '\"' => "&quot;"
    case '\'' => "&#39;"
    case _ => [c]
  }

  /** All five at once. */
  function Escaped(s: string): string {
    if s == "" then "" else EscapeOf(s[0]) + Escaped(s[1..])
  }

  lemma {:induction false} ReplaceConcat(a: string, b: string, c: char, sub: string)
    ensures Replace(a + b, c, sub) == Replace(a, c, sub) + Replace(b, c, sub)
  {
    if a == "" {
      assert a + b == b;
    } else {
      assert (a + b)[1..] == a[1..] + b;
      ReplaceConcat(a[1..], b, c, sub);
    }
  }

  lemma {:induction false} ReplaceAbsent(s: string, c: char, sub: string)
    requires c !in s
    ensures Replace(s, c, sub) == s
  {
    if s == "" {
    } else {
      ReplaceAbsent(s[1..], c, sub);
      assert s == [s[0]] + s[1..];
    }
  }

  lemma ReplaceOne(c: char, d: char, sub: string)
    ensures Replace([c], d, sub) == if c == d then sub else [c]
  {
    assert [c][1..] == "";
    assert Replace("", d, sub) == "";
  }

  lemma HtmlEscapeConcat(a: string, b: string)
    ensures HtmlEscape(a + b) == HtmlEscape(a) + HtmlEscape(b)
  {
    var a1, b1 := Replace(a, '&', "&amp;"), Replace(b, '&', "&amp;");
    var a2, b2 := Replace(a1, '<', "&lt;"), Replace(b1, '<', "&lt;");
    var a3, b3 := Replace(a2, '>', "&gt;"), Replace(b2, '>', "&gt;");
    var a4, b4 := Replace(a3, '\"', "&quot;"), Replace(b3, '\"', "&quot;");
    ReplaceConcat(a, b, '&', "&amp;");
    ReplaceConcat(a1, b1, '<', "&lt;");
    ReplaceConcat(a2, b2, '>', "&gt;");
    ReplaceConcat(a3, b3, '\"', "&quot;");
    ReplaceConcat(a4, b4, '\'', "&#39;");
  }

  /** No later replacement touches what an earlier one wrote. */
  lemma HtmlEscapeOne(c: char)
    ensures HtmlEscape([c]) == EscapeOf(c)
  {
    if c == '&' {
      ReplaceOne(c, '&', "&amp;");
      FourAbsent("&amp;");
    } else {
      ReplaceOne(c, '&', "&amp;");
      if c == '<' {
        ReplaceOne(c, '<', "&lt;");
        ThreeAbsent("&lt;");
      } else {
        ReplaceOne(c, '<', "&lt;");
        ReplaceOne(c, '>', "&gt;");
        if c == '>' {
          TwoAbsent("&gt;");
        } else {
          ReplaceOne(c, '\"', "&quot;");
          if c == '\"' { ReplaceAbsent("&quot;", '\'', "&#39;"); } else { ReplaceOne(c, '\'', "&#39;"); }
        }
      }
    }
  }

  lemma TwoAbsent(s: string)
    requires '\"' !in s && '\'' !in s
    ensures Replace(Replace(s, '\"', "&quot;"), '\'', "&#39;") == s
  {
    ReplaceAbsent(s, '\"', "&quot;");
    ReplaceAbsent(s, '\'', "&#39;");
  }

  lemma ThreeAbsent(s: string)
    requires '>' !in s && '\"' !in s && '\'' !in s
    ensures Replace(Replace(Replace(s, '>', "&gt;"), '\"', "&quot;"), '\'', "&#39;") == s
  {
    ReplaceAbsent(s, '>', "&gt;");
    TwoAbsent(s);
  }

  lemma FourAbsent(s: string)
    requires '<' !in s && '>' !in s && '\"' !in s && '\'' !in s
    ensures Replace(Replace(Replace(Replace(s, '<', "&lt;"), '>', "&gt;"), '\"', "&quot;"), '\'', "&#39;") == s
  {
    ReplaceAbsent(s, '<', "&lt;");
    ThreeAbsent(s);
  }

  /** The five sequential replacements are one simultaneous substitution. */
  lemma {:induction false} EscapeIsSimultaneous(s: string)
    ensures HtmlEscape(s) == Escaped(s)
  {
    if s == "" {
    } else {
      assert s == [s[0]] + s[1..];
      HtmlEscapeConcat([s[0]], s[1..]);
      HtmlEscapeOne(s[0]);
      EscapeIsSimultaneous(s[1..]);
    }
  }

  // ---------------------------------------------------------------- unescaping

  predicate StartsWith(s: string, p: string) {
    |p| <= |s| && s[..|p|] == p
  }

  /** Character references decoded, as far as this page uses them. */
  function Unescaped(s: string): string {
    if s == "" then ""
    else if StartsWith(s, "&amp;") then "&" + Unescaped(s[5..])
    else if StartsWith(s, "&lt;") then "<" + Unescaped(s[4..])
    else if StartsWith(s, "&gt;") then ">" + Unescaped(s[4..])
    else if StartsWith(s, "&quot;") then "\"" + Unescaped(s[6..])
    else if StartsWith(s, "&#39;") then "\'" + Unescaped(s[5..])
    else [s[0]] + Unescaped(s[1..])
  }

  lemma PrefixOf(p: string, s: string)
    ensures StartsWith(p + s, p) && (p + s)[|p|..] == s
  {
  }

  lemma UnescapeOne(c: char, rest: string)
    ensures Unescaped(EscapeOf(c) + rest) == [c] + Unescaped(rest)
  {
    var s := EscapeOf(c) + rest;
    PrefixOf(EscapeOf(c), rest);
    match c {
      case '&' =>
      case '<' => assert s[1] == 'l'; Unlike(s, "&amp;", 1);
      case '>' => assert s[1] == 'g'; Unlike(s, "&amp;", 1); Unlike(s, "&lt;", 1);
      case '\"' => assert s[1] == 'q'; Unlike(s, "&amp;", 1); Unlike(s, "&lt;", 1); Unlike(s, "&gt;", 1);
      case '\'' => assert s[1] == '#'; Unlike(s, "&amp;", 1); Unlike(s, "&lt;", 1); Unlike(s, "&gt;", 1);
        Unlike(s, "&quot;", 1);
      case _ =>
        assert s[0] == c;
        Unlike(s, "&amp;", 0);
        Unlike(s, "&lt;", 0);
        Unlike(s, "&gt;", 0);
        Unlike(s, "&quot;", 0);
        Unlike(s, "&#39;", 0);
    }
  }

  lemma Unlike(s: string, p: string, i: nat)
    requires i < |s| && i < |p| && s[i] != p[i]
    ensures !StartsWith(s, p)
  {
  }

  lemma {:induction false} UnescapeEscaped(s: string)
    ensures Unescaped(Escaped(s)) == s
  {
    if s == "" {
    } else {
      UnescapeOne(s[0], Escaped(s[1..]));
      UnescapeEscaped(s[1..]);
      assert s == [s[0]] + s[1..];
    }
  }

  /** A browser undoes `html_escape`. */
  lemma EscapeUndone(s: string)
    ensures Unescaped(HtmlEscape(s)) == s
  {
    EscapeIsSimultaneous(s);
    UnescapeEscaped(s);
  }

  lemma {:induction false} EscapedIsInert(s: string)
    ensures '<' !in Escaped(s) && '>' !in Escaped(s) && '\"' !in Escaped(s) && '\'' !in Escaped(s)
  {
    if s == "" {
    } else {
      EscapedIsInert(s[1..]);
      OneIsInert(s[0]);
    }
  }

  lemma OneIsInert(c: char)
    ensures '<' !in EscapeOf(c) && '>' !in EscapeOf(c) && '\"' !in EscapeOf(c) && '\'' !in EscapeOf(c)
  {
  }

  // ---------------------------------------------------------------- the page

  const OPEN := "<input type=\"hidden\" name=\""
  const MIDDLE := " value=\""
  const CLOSE := ">"

  /** One input element up to its last quote. */
  function Element(name: string, value: string): string {
    OPEN + name + "\"" + MIDDLE + value + "\""
  }

  function InputLine(field: (string, string)): string {
    "    " + Element(HtmlEscape(field.0), HtmlEscape(field.1)) + CLOSE
  }

  function InputLines(fields: seq<(string, string)>): string {
    if fields == [] then ""
    else if |fields| == 1 then InputLine(fields[0])
    else InputLine(fields[0]) + "\n" + InputLines(fields[1..])
  }

  function HeadTop(): string {
    "<!doctype html>\n" + "<html>\n" + "<head>\n" + "  <meta charset=\"utf-8\">\n"
  }

  function HeadRest(): string {
    "  <meta name=\"robots\" content=\"noindex\">\n" + "  <title>Completing connection\U{2026}</title>\n"
  }

  function BodyTag(): string {
    "</head>\n" + "<body onload=\"document.forms[0].submit()\">\n"
  }

  function FormTag(action: string): string {
    "  <form method=\"POST\" action=\"" + action + "\">\n"
  }

  function Head(action: string): string {
    HeadTop() + HeadRest() + BodyTag() + FormTag(action)
  }

  function Foot(): string {
    "\n    <noscript><button type=\"submit\">" + "Continue</button></noscript>\n"
    + "  </form>\n" + "</body>\n" + "</html>\n"
  }

  function AutoPostPage(action: string, fields: seq<(string, string)>): string {
    Head(action) + InputLines(fields) + Foot()
  }

  /** The fields of the page's form, in order: each input's name and value, up to its quote, unescaped. */
  function ReadInputs(s: string): seq<(string, string)>
    decreases |s|
  {
    if s == "" then []
    else if StartsWith(s, OPEN) then
      match SplitOnce(s[|OPEN|..], '\"')
      case None => []
      case Some((name, rest)) =>
        SplitParts(s[|OPEN|..], '\"');
        if !StartsWith(rest, MIDDLE) then ReadInputs(rest)
        else
          match SplitOnce(rest[|MIDDLE|..], '\"')
          case None => []
          case Some((value, after)) =>
            SplitParts(rest[|MIDDLE|..], '\"');
            [(Unescaped(name), Unescaped(value))] + ReadInputs(after)
    else ReadInputs(s[1..])
  }

  /** No tag in `s` can begin an input: every `<` is followed by another letter than `i`. */
  predicate NoInput(s: string) {
    forall i | 0 <= i < |s| && s[i] == '<' :: i + 1 < |s| && s[i + 1] != 'i'
  }

  lemma NoInputConcat(a: string, b: string)
    requires NoInput(a) && NoInput(b)
    ensures NoInput(a + b)
  {
    forall i | 0 <= i < |a + b| && (a + b)[i] == '<' ensures i + 1 < |a + b| && (a + b)[i + 1] != 'i' {
      if i >= |a| { assert b[i - |a|] == '<'; }
    }
  }

  lemma {:induction false} SkipsPlainText(a: string, b: string)
    requires NoInput(a)
    ensures ReadInputs(a + b) == ReadInputs(b)
  {
    if a == "" {
      assert a + b == b;
    } else {
      var s := a + b;
      assert s[1..] == a[1..] + b;
      assert forall i | 0 <= i < |a[1..]| :: a[1..][i] == a[i + 1];
      if a[0] == '<' { Unlike(s, OPEN, 1); } else { Unlike(s, OPEN, 0); }
      SkipsPlainText(a[1..], b);
    }
  }

  lemma ReadsOneInput(name: string, value: string, rest: string)
    requires '\"' !in name && '\"' !in value
    ensures
      ReadInputs(OPEN + name + "\"" + MIDDLE + value + "\"" + rest)
      == [(Unescaped(name), Unescaped(value))] + ReadInputs(rest)
  {
    var s := OPEN + name + "\"" + MIDDLE + value + "\"" + rest;
    var v := value + "\"" + rest;
    assert s == OPEN + (name + "\"" + (MIDDLE + v));
    PrefixOf(OPEN, name + "\"" + (MIDDLE + v));
    SplitAtFirst(name, '\"', MIDDLE + v);
    PrefixOf(MIDDLE, v);
    SplitAtFirst(value, '\"', rest);
  }

  lemma Regroup(a: string, b: string, c: string, d: string)
    ensures a + b + c + d == a + (b + (c + d))
  {
  }

  lemma ReadsElement(field: (string, string), rest: string)
    ensures ReadInputs(Element(HtmlEscape(field.0), HtmlEscape(field.1)) + rest) == [field] + ReadInputs(rest)
  {
    EscapeIsSimultaneous(field.0);
    EscapeIsSimultaneous(field.1);
    EscapedIsInert(field.0);
    EscapedIsInert(field.1);
    EscapeUndone(field.0);
    EscapeUndone(field.1);
    ReadsOneInput(HtmlEscape(field.0), HtmlEscape(field.1), rest);
  }

  lemma ReadsInputLine(field: (string, string), rest: string)
    ensures ReadInputs(InputLine(field) + rest) == [field] + ReadInputs(rest)
  {
    Regroup("    ", Element(HtmlEscape(field.0), HtmlEscape(field.1)), CLOSE, rest);
    assert NoInput("    ") && NoInput(CLOSE);
    SkipsPlainText("    ", Element(HtmlEscape(field.0), HtmlEscape(field.1)) + (CLOSE + rest));
    ReadsElement(field, CLOSE + rest);
    SkipsPlainText(CLOSE, rest);
  }

  lemma ReadsLineBreak(tail: string)
    ensures ReadInputs("\n" + tail) == ReadInputs(tail)
  {
    assert NoInput("\n");
    SkipsPlainText("\n", tail);
  }

  lemma {:induction false} ReadsInputLines(fields: seq<(string, string)>, rest: string)
    ensures ReadInputs(InputLines(fields) + rest) == fields + ReadInputs(rest)
  {
    if fields == [] {
      assert "" + rest == rest;
    } else if |fields| == 1 {
      ReadsInputLine(fields[0], rest);
    } else {
      var tail := InputLines(fields[1..]) + rest;
      Regroup(InputLine(fields[0]), "\n", InputLines(fields[1..]), rest);
      ReadsInputLine(fields[0], "\n" + tail);
      ReadsLineBreak(tail);
      ReadsInputLines(fields[1..], rest);
      assert fields == [fields[0]] + fields[1..];
    }
  }

  lemma HeadTopHasNoInput()
    ensures NoInput(HeadTop())
  {
    var a, b, c, d := "<!doctype html>\n", "<html>\n", "<head>\n", "  <meta charset=\"utf-8\">\n";
    assert NoInput(a) && NoInput(b) && NoInput(c) && NoInput(d);
    NoInputConcat(a, b);
    NoInputConcat(a + b, c);
    NoInputConcat(a + b + c, d);
  }

  lemma HeadRestHasNoInput()
    ensures NoInput(HeadRest())
  {
    var a := "  <meta name=\"robots\" content=\"noindex\">\n";
    var b := "  <title>Completing connection\U{2026}</title>\n";
    assert NoInput(a) && NoInput(b);
    NoInputConcat(a, b);
  }

  lemma BodyTagHasNoInput()
    ensures NoInput(BodyTag())
  {
    var a, b := "</head>\n", "<body onload=\"document.forms[0].submit()\">\n";
    assert NoInput(a) && NoInput(b);
    NoInputConcat(a, b);
  }

  lemma FormTagHasNoInput(action: string)
    requires '<' !in action
    ensures NoInput(FormTag(action))
  {
    var a := "  <form method=\"POST\" action=\"";
    assert NoInput(a) && NoInput(action) && NoInput("\">\n");
    NoInputConcat(a, action);
    NoInputConcat(a + action, "\">\n");
  }

  lemma HeadHasNoInput(action: string)
    requires '<' !in action
    ensures NoInput(Head(action))
  {
    HeadTopHasNoInput();
    HeadRestHasNoInput();
    BodyTagHasNoInput();
    FormTagHasNoInput(action);
    NoInputConcat(HeadTop(), HeadRest());
    NoInputConcat(HeadTop() + HeadRest(), BodyTag());
    NoInputConcat(HeadTop() + HeadRest() + BodyTag(), FormTag(action));
  }

  lemma FootHasNoInput()
    ensures NoInput(Foot())
  {
    var a := "\n    <noscript><button type=\"submit\">";
    var b := "Continue</button></noscript>\n";
    assert NoInput(a) && NoInput(b) && NoInput("  </form>\n") && NoInput("</body>\n") && NoInput("</html>\n");
    NoInputConcat(a, b);
    NoInputConcat(a + b, "  </form>\n");
    NoInputConcat(a + b + "  </form>\n", "</body>\n");
    NoInputConcat(a + b + "  </form>\n" + "</body>\n", "</html>\n");
  }

  lemma ReadsBetween(head: string, fields: seq<(string, string)>, foot: string)
    requires NoInput(head) && NoInput(foot)
    ensures ReadInputs(head + InputLines(fields) + foot) == fields
  {
    assert head + InputLines(fields) + foot == head + (InputLines(fields) + foot);
    SkipsPlainText(head, InputLines(fields) + foot);
    ReadsInputLines(fields, foot);
    assert foot + "" == foot;
    SkipsPlainText(foot, "");
  }

  /** A browser reads back exactly the fields the page was rendered from, whatever is in them. */
  lemma PageReadsBack(action: string, fields: seq<(string, string)>)
    requires '<' !in action
    ensures ReadInputs(AutoPostPage(action, fields)) == fields
  {
    HeadHasNoInput(action);
    FootHasNoInput();
    ReadsBetween(Head(action), fields, Foot());
  }

  // ---------------------------------------------------------------- where the form goes

  const FORM := "<form method=\""
  const ACTION := " action=\""

  /** Method and target of the first form of a page. */
  function ReadForm(s: string): Option<(string, string)> {
    if s == "" then None
    else if StartsWith(s, FORM) then
      match SplitOnce(s[|FORM|..], '\"')
      case None => None
      case Some((verb, rest)) =>
        if !StartsWith(rest, ACTION) then None
        else
          match SplitOnce(rest[|ACTION|..], '\"')
          case None => None
          case Some((target, _)) => Some((verb, target))
    else ReadForm(s[1..])
  }

  /** No tag in `s` can begin a form. */
  predicate NoForm(s: string) {
    forall i | 0 <= i < |s| && s[i] == '<' :: i + 1 < |s| && s[i + 1] != 'f'
  }

  lemma NoFormConcat(a: string, b: string)
    requires NoForm(a) && NoForm(b)
    ensures NoForm(a + b)
  {
    forall i | 0 <= i < |a + b| && (a + b)[i] == '<' ensures i + 1 < |a + b| && (a + b)[i + 1] != 'f' {
      if i >= |a| { assert b[i - |a|] == '<'; }
    }
  }

  lemma {:induction false} SkipsFormless(a: string, b: string)
    requires NoForm(a)
    ensures ReadForm(a + b) == ReadForm(b)
  {
    if a == "" {
      assert a + b == b;
    } else {
      var s := a + b;
      assert s[1..] == a[1..] + b;
      assert forall i | 0 <= i < |a[1..]| :: a[1..][i] == a[i + 1];
      if a[0] == '<' { Unlike(s, FORM, 1); } else { Unlike(s, FORM, 0); }
      SkipsFormless(a[1..], b);
    }
  }

  lemma ReadsOneForm(verb: string, target: string, rest: string)
    requires '\"' !in verb && '\"' !in target
    ensures ReadForm(FORM + verb + "\"" + ACTION + target + "\"" + rest) == Some((verb, target))
  {
    var s := FORM + verb + "\"" + ACTION + target + "\"" + rest;
    var t := target + "\"" + rest;
    assert s == FORM + (verb + "\"" + (ACTION + t));
    PrefixOf(FORM, verb + "\"" + (ACTION + t));
    SplitAtFirst(verb, '\"', ACTION + t);
    PrefixOf(ACTION, t);
    SplitAtFirst(target, '\"', rest);
  }

  lemma HeadTopHasNoForm()
    ensures NoForm(HeadTop())
  {
    var a, b, c, d := "<!doctype html>\n", "<html>\n", "<head>\n", "  <meta charset=\"utf-8\">\n";
    assert NoForm(a) && NoForm(b) && NoForm(c) && NoForm(d);
    NoFormConcat(a, b);
    NoFormConcat(a + b, c);
    NoFormConcat(a + b + c, d);
  }

  lemma HeadRestHasNoForm()
    ensures NoForm(HeadRest())
  {
    var a := "  <meta name=\"robots\" content=\"noindex\">\n";
    var b := "  <title>Completing connection\U{2026}</title>\n";
    assert NoForm(a) && NoForm(b);
    NoFormConcat(a, b);
  }

  lemma BodyTagHasNoForm()
    ensures NoForm(BodyTag())
  {
    var a, b := "</head>\n", "<body onload=\"document.forms[0].submit()\">\n";
    assert NoForm(a) && NoForm(b);
    NoFormConcat(a, b);
  }

  lemma TopHasNoForm()
    ensures NoForm(HeadTop() + HeadRest() + BodyTag())
  {
    HeadTopHasNoForm();
    HeadRestHasNoForm();
    BodyTagHasNoForm();
    NoFormConcat(HeadTop(), HeadRest());
    NoFormConcat(HeadTop() + HeadRest(), BodyTag());
  }

  lemma FormTagParts(action: string)
    ensures FormTag(action) == "  " + (FORM + "POST" + "\"" + ACTION + action + "\"" + ">\n")
  {
    var opening := "  <form method=\"POST\" action=\"";
    assert opening == "  " + FORM + "POST" + "\"" + ACTION;
    assert "\">\n" == "\"" + ">\n";
  }

  lemma ReadsFormTag(action: string, rest: string)
    requires '\"' !in action
    ensures ReadForm(FormTag(action) + rest) == Some(("POST", action))
  {
    var tag := FORM + "POST" + "\"" + ACTION + action + "\"";
    FormTagParts(action);
    assert FormTag(action) + rest == "  " + (tag + (">\n" + rest));
    assert NoForm("  ");
    SkipsFormless("  ", tag + (">\n" + rest));
    ReadsOneForm("POST", action, ">\n" + rest);
  }

  /** The page's form posts to the action it was rendered with. */
  lemma PageSubmitsTo(action: string, fields: seq<(string, string)>)
    requires '\"' !in action
    ensures ReadForm(AutoPostPage(action, fields)) == Some(("POST", action))
  {
    SubmitsBetween(HeadTop() + HeadRest() + BodyTag(), action, InputLines(fields), Foot());
  }

  lemma SubmitsBetween(top: string, action: string, lines: string, foot: string)
    requires top == HeadTop() + HeadRest() + BodyTag() && '\"' !in action
    ensures ReadForm(top + FormTag(action) + lines + foot) == Some(("POST", action))
  {
    TopHasNoForm();
    Regroup(top, FormTag(action), lines, foot);
    assert FormTag(action) + (lines + foot) == FormTag(action) + lines + foot;
    SkipsFormless(top, FormTag(action) + (lines + foot));
    ReadsFormTag(action, lines + foot);
  }

  // ---------------------------------------------------------------- the callback

  const COMPLETE_ACTION := "complete"

  /** The provider's redirect target: a page for a code that is not blank and a state that verifies. */
  function Callback(lib: Libraries, key: seq<Byte>, code: string, state: string, now: int):
    Result<string, Option<StateError>>
  {
    if Blank(code) then Err(None)
    else
      match Verify(lib, key, state, now)
      case Err(e) => Err(Some(e))
      case Ok(_) => Ok(AutoPostPage(COMPLETE_ACTION, [("code", code), ("state", state)]))
  }

  lemma VerifiedIsSomething(lib: Libraries, key: seq<Byte>, state: string, now: int)
    requires Verify(lib, key, state, now).Ok?
    ensures state != ""
  {
    assert SplitOnce("", '.') == None;
  }

  lemma PageCarries(action: string, code: string, state: string, fields: seq<(string, string)>)
    requires '<' !in action && '\"' !in action && code != "" && state != ""
    requires fields == [("code", code), ("state", state)]
    ensures ReadForm(AutoPostPage(action, fields)) == Some(("POST", action))
    ensures ParsedForm(FormBody(ReadInputs(AutoPostPage(action, fields)))) == Some(CompleteRequest(code, state))
  {
    PageSubmitsTo(action, fields);
    PageReadsBack(action, fields);
    FormRoundTrip(code, state);
  }

  lemma CompleteActionIsPlain()
    ensures '<' !in COMPLETE_ACTION && '\"' !in COMPLETE_ACTION
  {
  }

  /** A page is rendered for exactly the verified states with a code. Its form posts to the completion route, with
      code and state as they left the provider: page, browser, urlencoded body and parser are the identity. */
  lemma CallbackRoundTrip(lib: Libraries, key: seq<Byte>, code: string, state: string, now: int)
    ensures var r := Callback(lib, key, code, state, now);
      && (r.Ok? <==> !Blank(code) && Verify(lib, key, state, now).Ok?)
      && (r.Ok? ==>
            && ReadForm(r.value) == Some(("POST", "complete"))
            && ParsedForm(FormBody(ReadInputs(r.value))) == Some(CompleteRequest(code, state)))
  {
    if Callback(lib, key, code, state, now).Ok? {
      VerifiedIsSomething(lib, key, state, now);
      CompleteActionIsPlain();
      PageCarries(COMPLETE_ACTION, code, state, [("code", code), ("state", state)]);
    }
  }
}
