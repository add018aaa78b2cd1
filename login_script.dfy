/** generate_login_script of credentials_manager.rs: the auto-login script text
    for a service, with the username and password spliced verbatim, without any
    escaping, into a fixed template.

    The two templates of the source are the same text except for the attribute
    the two input selectors match on (`type` for gemini, `name` for poe), so a
    template is written here as shared constant pieces around `Attr(svc)`.
    Every template is `Prefix(svc) + username + Middle + password + Tail`. */
module LoginScript {
  import opened Results
  import opened Splicing

  /** The services the generator knows. */
  datatype Service = Gemini | Poe

  /** The error string for any other service name ("unsupported service type"). */
  const Unsupported: string := "不支持的服务类型"

  /** The service a name stands for; only the exact strings "gemini" and "poe". */
  function ServiceNamed(name: string): (r: Option<Service>)
    ensures r.Some? <==> name == "gemini" || name == "poe"
    ensures r.Some? ==> Name(r.value) == name
  {
    match name
    case "gemini" => Some(Gemini)
    case "poe" => Some(Poe)
    case _ => None
  }

  function Name(svc: Service): string
  {
    match svc
    case Gemini => "gemini"
    case Poe => "poe"
  }

  /** The attribute the email and password inputs are located by. */
  function Attr(svc: Service): string
  {
    match svc
    case Gemini => "type"
    case Poe => "name"
  }

  function EmailSelector(svc: Service): string
  {
    "input[" + Attr(svc) + "=\"email\"]"
  }

  function PasswordSelector(svc: Service): string
  {
    "input[" + Attr(svc) + "=\"password\"]"
  }

  const SubmitSelector: string := "button[type=\"submit\"]"

  /** The delimiter of the JavaScript string literals the credentials go into. */
  const Quote: string := "\""

  // The template text, line by line; `{{` and `}}` of the Rust format string
  // are single braces here.

  const Head: string :=
    "\n" +
    "            (function() {\n" +
    "                // 检查是否有登录表单\n" +
    "                const emailInput = document.querySelector('"

  const AfterEmailSelector: string :=
    "');\n" +
    "                const passwordInput = document.querySelector('"

  const AfterPasswordSelector: string :=
    "');\n" +
    "                const loginButton = document.querySelector('"

  const AfterSubmitSelector: string :=
    "');\n" +
    "                \n" +
    "                if (emailInput && passwordInput && loginButton) {\n" +
    "                    // 填充凭证\n" +
    "                    emailInput.value = " + Quote

  /** Between the username and the password. */
  const Middle: string :=
    Quote + ";\n" +
    "                    passwordInput.value = " + Quote

  /** After the password. */
  const Tail: string :=
    Quote + ";\n" +
    "                    \n" +
    "                    // 点击登录按钮\n" +
    "                    setTimeout(() => {\n" +
    "                        loginButton.click();\n" +
    "                    }, 500);\n" +
    "                    \n" +
    "                    return true;\n" +
    "                }\n" +
    "                return false;\n" +
    "            })()\n" +
    "            "

  /** Everything before the username. */
  function Prefix(svc: Service): string
  {
    Head + EmailSelector(svc) + AfterEmailSelector + PasswordSelector(svc)
      + AfterPasswordSelector + SubmitSelector + AfterSubmitSelector
  }

  /** A template: the fixed text around the two slots. */
  datatype Template = Template(prefix: string, middle: string, tail: string)

  /** The template `generate_login_script` uses for `svc`. */
  function TemplateOf(svc: Service): Template
  {
    Template(Prefix(svc), Middle, Tail)
  }

  /** `t` with `username` and `password` put into its slots as they are. */
  function Fill(t: Template, username: string, password: string): string
  {
    t.prefix + username + t.middle + password + t.tail
  }

  /** generate_login_script: the filled template for "gemini" and "poe",
      `Err(Unsupported)` for every other service name. */
  function GenerateLoginScript(service: string, username: string, password: string)
    : (r: Result<string, string>)
    ensures r.Err? <==> service != "gemini" && service != "poe"
    ensures r.Err? ==> r.error == Unsupported
    ensures service == "gemini" ==> r == Ok(Fill(TemplateOf(Gemini), username, password))
    ensures service == "poe" ==> r == Ok(Fill(TemplateOf(Poe), username, password))
  {
    match ServiceNamed(service)
    case None => Err(Unsupported)
    case Some(svc) => Ok(Fill(TemplateOf(svc), username, password))
  }

  /** Reads the two slots back out of a text built from `t`, given the length
      of the username. */
  function Unsplice(t: Template, script: string, usernameLength: nat): (r: Option<(string, string)>)
    ensures r.Some? ==> |r.value.0| == usernameLength
  {
    var k := |t.prefix|;
    var m := k + usernameLength;
    var n := m + |t.middle|;
    if n + |t.tail| <= |script| && script[..k] == t.prefix
       && script[m..n] == t.middle && script[|script| - |t.tail|..] == t.tail
    then Some((script[k..m], script[n..|script| - |t.tail|]))
    else None
  }

  /** Text found in the prefix of a template is found, at the same place, in
      every filled copy of it. */
  lemma OccursInFill(t: Template, username: string, password: string, x: string, i: nat)
    requires Occurs(t.prefix, x, i)
    ensures Occurs(Fill(t, username, password), x, i)
  {
    OccursExtended(t.prefix, x, i, username);
    OccursExtended(t.prefix + username, x, i, t.middle);
    OccursExtended(t.prefix + username + t.middle, x, i, password);
    OccursExtended(t.prefix + username + t.middle + password, x, i, t.tail);
  }

  /** Two templates with equally long prefixes and the same middle and tail
      give texts that match their prefixes and agree after them. */
  lemma FillsAgreeAfterPrefix(t1: Template, t2: Template, username: string, password: string)
    requires |t1.prefix| == |t2.prefix| && t1.middle == t2.middle && t1.tail == t2.tail
    ensures var f1, f2 := Fill(t1, username, password), Fill(t2, username, password);
            && |f1| == |f2|
            && (forall i :: 0 <= i < |t1.prefix| ==> f1[i] == t1.prefix[i] && f2[i] == t2.prefix[i])
            && (forall i :: |t1.prefix| <= i < |f1| ==> f1[i] == f2[i])
  {
    var rest := username + t1.middle + password + t1.tail;
    SamePrefixLength(t1.prefix, t2.prefix, rest);
    assert Fill(t1, username, password) == t1.prefix + rest;
    assert Fill(t2, username, password) == t2.prefix + rest;
  }

  /** The credentials are spliced verbatim: reading the two slots back out of
      a filled template gives exactly the username and password. */
  lemma UnspliceFill(t: Template, username: string, password: string)
    ensures Unsplice(t, Fill(t, username, password), |username|) == Some((username, password))
  {
    SlotsOfSplice(t.prefix, username, t.middle, password, t.tail);
  }

  /** Conversely, any text whose slots can be read back is the template
      filled with what was read. */
  lemma FillUnsplice(t: Template, script: string, usernameLength: nat)
    requires Unsplice(t, script, usernameLength).Some?
    ensures var (u, p) := Unsplice(t, script, usernameLength).value;
            Fill(t, u, p) == script
  {
    JoinSlots(script, t.prefix, t.middle, t.tail, usernameLength);
  }

  /** Each slot of `t` is the inside of a double-quoted string literal. */
  predicate SlotsQuoted(t: Template)
  {
    && |t.prefix| > 0 && t.prefix[|t.prefix| - 1] == '"'
    && |t.middle| > 0 && t.middle[0] == '"' && t.middle[|t.middle| - 1] == '"'
    && |t.tail| > 0 && t.tail[0] == '"'
  }

  lemma TemplatesQuoteSlots(svc: Service)
    ensures SlotsQuoted(TemplateOf(svc))
  {
  }

  /** In a filled template whose slots are quoted, the username sits between
      the quotes of the first literal and the password between those of the
      second, and the username comes first. */
  lemma CredentialsQuotedInOrder(t: Template, username: string, password: string)
    requires SlotsQuoted(t)
    ensures var s := Fill(t, username, password);
            var k := |t.prefix|;
            var n := k + |username| + |t.middle|;
            && Occurs(s, username, k)
            && Occurs(s, password, n)
            && k + |username| < n
            && s[k - 1] == '"' && s[k + |username|] == '"'
            && s[n - 1] == '"' && s[n + |password|] == '"'
  {
    SlotsOfSplice(t.prefix, username, t.middle, password, t.tail);
    QuotesAroundSlots(t.prefix, username, t.middle, password, t.tail);
  }

  function PasswordSelectorAt(svc: Service): nat
  {
    |Head| + |EmailSelector(svc)| + |AfterEmailSelector|
  }

  function SubmitSelectorAt(svc: Service): nat
  {
    PasswordSelectorAt(svc) + |PasswordSelector(svc)| + |AfterPasswordSelector|
  }

  /** The three selectors appear, in order, in the text before the username. */
  lemma SelectorsInPrefix(svc: Service)
    ensures && Occurs(Prefix(svc), EmailSelector(svc), |Head|)
            && Occurs(Prefix(svc), PasswordSelector(svc), PasswordSelectorAt(svc))
            && Occurs(Prefix(svc), SubmitSelector, SubmitSelectorAt(svc))
            && |Head| + |EmailSelector(svc)| <= PasswordSelectorAt(svc)
            && PasswordSelectorAt(svc) + |PasswordSelector(svc)| <= SubmitSelectorAt(svc)
  {
    PiecesOccur(Head, EmailSelector(svc), AfterEmailSelector, PasswordSelector(svc),
                AfterPasswordSelector, SubmitSelector, AfterSubmitSelector);
  }

  /** The selectors of `svc`'s template appear, in order, in every script
      built from it, all before the username. */
  lemma SelectorsInScript(svc: Service, username: string, password: string)
    ensures var s := Fill(TemplateOf(svc), username, password);
            && Occurs(s, EmailSelector(svc), |Head|)
            && Occurs(s, PasswordSelector(svc), PasswordSelectorAt(svc))
            && Occurs(s, SubmitSelector, SubmitSelectorAt(svc))
            && |Head| + |EmailSelector(svc)| <= PasswordSelectorAt(svc)
            && PasswordSelectorAt(svc) + |PasswordSelector(svc)| <= SubmitSelectorAt(svc)
            && SubmitSelectorAt(svc) + |SubmitSelector| <= |TemplateOf(svc).prefix|
  {
    SelectorsInPrefix(svc);
    var t := TemplateOf(svc);
    OccursInFill(t, username, password, EmailSelector(svc), |Head|);
    OccursInFill(t, username, password, PasswordSelector(svc), PasswordSelectorAt(svc));
    OccursInFill(t, username, password, SubmitSelector, SubmitSelectorAt(svc));
  }

  /** The gemini script locates its inputs by `type`, the poe script by `name`;
      both press `button[type="submit"]`. */
  lemma SelectorTexts()
    ensures EmailSelector(Gemini) == "input[type=\"email\"]"
    ensures PasswordSelector(Gemini) == "input[type=\"password\"]"
    ensures EmailSelector(Poe) == "input[name=\"email\"]"
    ensures PasswordSelector(Poe) == "input[name=\"password\"]"
    ensures SubmitSelector == "button[type=\"submit\"]"
  {
  }

  /** The two prefixes have the same length and agree everywhere except at
      the two four-letter attribute names. */
  lemma PrefixesDifferOnlyInAttribute()
    ensures var a1, a2 := |Head| + 6, PasswordSelectorAt(Gemini) + 6;
            && Occurs(Prefix(Gemini), "type", a1) && Occurs(Prefix(Gemini), "type", a2)
            && Occurs(Prefix(Poe), "name", a1) && Occurs(Prefix(Poe), "name", a2)
            && AgreeOutside(Prefix(Gemini), Prefix(Poe), a1, a2, 4)
  {
    var rest := AfterPasswordSelector + SubmitSelector + AfterSubmitSelector;
    var b := "=\"email\"]" + AfterEmailSelector + "input[";
    var c := "=\"password\"]" + rest;
    Regroup(Head, "input[", "type", "=\"email\"]", AfterEmailSelector, "input[", "type",
            "=\"password\"]", AfterPasswordSelector, SubmitSelector, AfterSubmitSelector);
    Regroup(Head, "input[", "name", "=\"email\"]", AfterEmailSelector, "input[", "name",
            "=\"password\"]", AfterPasswordSelector, SubmitSelector, AfterSubmitSelector);
    SameOutsideWindows(Head + "input[", "type", "name", b, "type", "name", c);
  }

  /** Filling two templates that share middle and tail and whose prefixes agree
      outside two windows gives texts that agree outside the same windows. */
  lemma FillsAgreeOutside(t1: Template, t2: Template, username: string, password: string,
                          a1: nat, a2: nat, w: nat)
    requires t1.middle == t2.middle && t1.tail == t2.tail
    requires AgreeOutside(t1.prefix, t2.prefix, a1, a2, w)
    ensures AgreeOutside(Fill(t1, username, password), Fill(t2, username, password), a1, a2, w)
  {
    FillsAgreeAfterPrefix(t1, t2, username, password);
  }

  /** The gemini and poe scripts for the same credentials have the same length
      and agree everywhere except at the two attribute names. */
  lemma ScriptsDifferOnlyInAttribute(username: string, password: string)
    ensures var g := Fill(TemplateOf(Gemini), username, password);
            var q := Fill(TemplateOf(Poe), username, password);
            var a1, a2 := |Head| + 6, PasswordSelectorAt(Gemini) + 6;
            && Occurs(g, "type", a1) && Occurs(g, "type", a2)
            && Occurs(q, "name", a1) && Occurs(q, "name", a2)
            && AgreeOutside(g, q, a1, a2, 4)
  {
    PrefixesDifferOnlyInAttribute();
    var a1, a2 := |Head| + 6, PasswordSelectorAt(Gemini) + 6;
    var t1, t2 := TemplateOf(Gemini), TemplateOf(Poe);
    FillsAgreeOutside(t1, t2, username, password, a1, a2, 4);
    OccursInFill(t1, username, password, "type", a1);
    OccursInFill(t1, username, password, "type", a2);
    OccursInFill(t2, username, password, "name", a1);
    OccursInFill(t2, username, password, "name", a2);
  }

  /** Without escaping, a filled template does not determine the credentials:
      a username that contains the middle text yields the same script as a
      different username and password. */
  lemma UnescapedSpliceIsAmbiguous(t: Template)
    ensures ("a" + t.middle + "b", "c") != ("a", "b" + t.middle + "c")
    ensures Fill(t, "a" + t.middle + "b", "c") == Fill(t, "a", "b" + t.middle + "c")
  {
    SpliceShift(t.prefix, "a", t.middle, "b", "c", t.tail);
  }

  /** The same for the two login scripts. */
  lemma LoginScriptIsAmbiguous(service: string)
    requires service == "gemini" || service == "poe"
    ensures GenerateLoginScript(service, "a" + Middle + "b", "c")
         == GenerateLoginScript(service, "a", "b" + Middle + "c")
  {
    UnescapedSpliceIsAmbiguous(TemplateOf(ServiceNamed(service).value));
  }
}
