/** Expansion of notification scripts: expandNotifyScript replaces $NAME and
    ${NAME} for known names in one left-to-right scan. */
module Template {
  /** isShellVarStart */
  predicate IsVarStart(c: char) {
    c == '_' || 'A' <= c <= 'Z' || 'a' <= c <= 'z'
  }

  /** isShellVarChar */
  predicate IsVarChar(c: char) {
    IsVarStart(c) || '0' <= c <= '9'
  }

  /** The length of the longest prefix of shell variable characters. */
  function NameLength(s: string): (n: nat)
    ensures n <= |s|
    ensures forall k :: 0 <= k < n ==> IsVarChar(s[k])
    ensures n < |s| ==> !IsVarChar(s[n])
  {
    if s == "" || !IsVarChar(s[0]) then 0 else 1 + NameLength(s[1..])
  }

  /** The number of characters before the first '}', or the length if there is none. */
  function BraceIndex(s: string): (n: nat)
    ensures n <= |s|
    ensures '}' !in s[..n]
    ensures n < |s| ==> s[n] == '}'
  {
    if s == "" || s[0] == '}' then 0 else 1 + BraceIndex(s[1..])
  }

  // ----- The token specification

  /** A script is a sequence of tokens. Each keeps its own text; a Reference
      stands for the value of a known name. */
  datatype Token = Text(text: string) | Reference(name: string, text: string)

  /** The first token of a script, given the known names. */
  function FirstToken(s: string, names: set<string>): (t: Token)
    requires s != ""
    ensures 0 < |t.text| <= |s| && t.text == s[..|t.text|]
    ensures t.Reference? ==> t.name in names
  {
    if s[0] != '$' then Text(s[..1])
    else if IsBraced(s, names) then
      var n := BraceIndex(s[2..]);
      Reference(s[2..2 + n], s[..n + 3])
    else if |s| < 2 || !IsVarStart(s[1]) then Text(s[..1])
    else
      var n := NameLength(s[1..]);
      assert n > 0;
      if s[1..1 + n] in names then Reference(s[1..1 + n], s[..1 + n]) else Text(s[..1 + n])
  }

  /** The script starts with ${NAME} for a known name. */
  predicate IsBraced(s: string, names: set<string>) {
    && |s| > 2 && s[0] == '$' && s[1] == '{'
    && BraceIndex(s[2..]) < |s| - 2
    && s[2..2 + BraceIndex(s[2..])] in names
  }

  function Tokens(s: string, names: set<string>): seq<Token> {
    if s == "" then []
    else
      var t := FirstToken(s, names);
      [t] + Tokens(s[|t.text|..], names)
  }

  /** The texts of the tokens, one after another. */
  function Source(tokens: seq<Token>): string {
    if tokens == [] then "" else tokens[0].text + Source(tokens[1..])
  }

  function RenderToken(t: Token, vars: map<string, string>): string
    requires t.Reference? ==> t.name in vars
  {
    match t
    case Text(text) => text
    case Reference(name, _) => vars[name]
  }

  predicate Known(tokens: seq<Token>, names: set<string>) {
    forall k :: 0 <= k < |tokens| && tokens[k].Reference? ==> tokens[k].name in names
  }

  /** Every reference replaced by its value, and nothing else touched. */
  function Render(tokens: seq<Token>, vars: map<string, string>): string
    requires Known(tokens, vars.Keys)
  {
    if tokens == [] then "" else RenderToken(tokens[0], vars) + Render(tokens[1..], vars)
  }

  /** The expansion of a script, token by token. */
  function Expand(s: string, vars: map<string, string>): string {
    if s == "" then ""
    else
      var t := FirstToken(s, vars.Keys);
      RenderToken(t, vars) + Expand(s[|t.text|..], vars)
  }

  // ----- The code

  /** expandNotifyScript */
  method ExpandNotifyScript(script: string, vars: map<string, string>) returns (out: string)
    ensures out == Expand(script, vars)
  {
    hide Expand, FirstToken, IsBraced, NameLength, BraceIndex;
    out := "";
    var i := 0;
    assert script[0..] == script;
    while i < |script|
      invariant 0 <= i <= |script|
      invariant out + Expand(script[i..], vars) == Expand(script, vars)
    {
      if script[i] != '$' {
        PlainStep(script, i, out, vars);
        out := out + [script[i]];
        i := i + 1;
        continue;
      }
      if i + 2 < |script| && script[i + 1] == '{' {
        var end := IndexByte(script[i + 2..], '}');
        if end >= 0 {
          var name := script[i + 2..i + 2 + end];
          BracedStep(script, i, end, out, vars);
          if name in vars {
            out := out + vars[name];
            i := i + end + 3;
            continue;
          }
        } else {
          NoBraceStep(script, i, vars);
        }
      } else {
        NoBraceStep(script, i, vars);
      }
      var start := i + 1;
      if start >= |script| || !IsVarStart(script[start]) {
        DollarStep(script, i, out, vars);
        out := out + [script[i]];
        i := i + 1;
        continue;
      }
      var end := start + 1;
      while end < |script| && IsVarChar(script[end])
        invariant start < end <= |script|
        invariant forall k :: start <= k < end ==> IsVarChar(script[k])
      {
        end := end + 1;
      }
      var name := script[start..end];
      NameStep(script, i, end, out, vars);
      if name in vars {
        out := out + vars[name];
      } else {
        out := out + script[i..end];
      }
      i := end;
    }
    EndStep(script, out, vars);
  }

  lemma EndStep(script: string, out: string, vars: map<string, string>)
    ensures out + Expand(script[|script|..], vars) == out
  {
  }

  /** The steps of the scanner; `out` is what it has written so far. */
  lemma PlainStep(script: string, i: nat, out: string, vars: map<string, string>)
    requires i < |script| && script[i] != '$'
    ensures out + Expand(script[i..], vars) == (out + [script[i]]) + Expand(script[i + 1..], vars)
  {
    ExpandStep(script, i, out, vars);
  }

  lemma BracedStep(script: string, i: nat, n: nat, out: string, vars: map<string, string>)
    requires i + 2 + n < |script| && script[i] == '$' && script[i + 1] == '{'
    requires script[i + 2 + n] == '}' && '}' !in script[i + 2..][..n]
    ensures var name := script[i + 2..i + 2 + n];
            if name in vars then
              out + Expand(script[i..], vars) == (out + vars[name]) + Expand(script[i + n + 3..], vars)
            else !IsBraced(script[i..], vars.Keys)
  {
    hide Expand;
    var rest := script[i..];
    assert script[i + 2..] == rest[2..];
    BraceIndexIs(rest[2..], n);
    assert script[i + 2..i + 2 + n] == rest[2..2 + n];
    if rest[2..2 + n] in vars {
      assert FirstToken(rest, vars.Keys) == Reference(rest[2..2 + n], rest[..n + 3]);
      ExpandStep(script, i, out, vars);
    }
  }

  lemma NoBraceStep(script: string, i: nat, vars: map<string, string>)
    requires i < |script|
    requires i + 2 < |script| && script[i + 1] == '{' ==> '}' !in script[i + 2..]
    ensures !IsBraced(script[i..], vars.Keys)
  {
  }

  lemma DollarStep(script: string, i: nat, out: string, vars: map<string, string>)
    requires i < |script| && script[i] == '$' && !IsBraced(script[i..], vars.Keys)
    requires i + 1 >= |script| || !IsVarStart(script[i + 1])
    ensures out + Expand(script[i..], vars) == (out + [script[i]]) + Expand(script[i + 1..], vars)
  {
  }

  lemma NameStep(script: string, i: nat, end: nat, out: string, vars: map<string, string>)
    requires i + 1 < end <= |script| && script[i] == '$' && !IsBraced(script[i..], vars.Keys)
    requires IsVarStart(script[i + 1])
    requires (forall k :: i + 1 <= k < end ==> IsVarChar(script[k])) && (end < |script| ==> !IsVarChar(script[end]))
    ensures var name := script[i + 1..end];
            out + Expand(script[i..], vars) ==
            (out + if name in vars then vars[name] else script[i..end]) + Expand(script[end..], vars)
  {
    hide Expand, FirstToken, IsBraced, NameLength;
    var rest := script[i..];
    assert NameLength(rest[1..]) == end - i - 1 by {
      var behind := script[i + 1..];
      hide IsVarChar;
      assert rest[1..] == behind && forall k :: 0 <= k < |behind| ==> behind[k] == script[i + 1 + k];
      NameLengthIs(behind, end - i - 1);
    }
    assert script[i + 1..end] == rest[1..end - i] && script[i..end] == rest[..end - i];
    NameToken(rest, end - i, vars.Keys);
    ExpandStep(script, i, out, vars);
  }

  lemma NameToken(s: string, end: nat, names: set<string>)
    requires 1 < end <= |s| && s[0] == '$' && !IsBraced(s, names) && IsVarStart(s[1]) && NameLength(s[1..]) == end - 1
    ensures FirstToken(s, names) == if s[1..end] in names then Reference(s[1..end], s[..end]) else Text(s[..end])
  {
  }

  /** strings.IndexByte */
  method IndexByte(s: string, c: char) returns (index: int)
    ensures index == -1 ==> c !in s
    ensures index != -1 ==> 0 <= index < |s| && s[index] == c && c !in s[..index]
  {
    index := 0;
    while index < |s|
      invariant 0 <= index <= |s|
      invariant c !in s[..index]
    {
      if s[index] == c {
        return;
      }
      index := index + 1;
    }
    return -1;
  }

  lemma ExpandStep(script: string, i: nat, out: string, vars: map<string, string>)
    requires i < |script|
    ensures var t := FirstToken(script[i..], vars.Keys);
            && i + |t.text| <= |script|
            && out + Expand(script[i..], vars) == (out + RenderToken(t, vars)) + Expand(script[i + |t.text|..], vars)
  {
    hide FirstToken, RenderToken;
    var rest := script[i..];
    var t := FirstToken(rest, vars.Keys);
    var after := Expand(rest[|t.text|..], vars);
    assert Expand(rest, vars) == RenderToken(t, vars) + after;
    assert rest[|t.text|..] == script[i + |t.text|..];
    hide Expand;
    assert out + (RenderToken(t, vars) + after) == (out + RenderToken(t, vars)) + after;
  }

  lemma BraceIndexIs(s: string, n: nat)
    requires n < |s| && s[n] == '}' && '}' !in s[..n]
    ensures BraceIndex(s) == n
  {
  }

  lemma NameLengthIs(s: string, n: nat)
    requires n <= |s| && (forall k :: 0 <= k < n ==> IsVarChar(s[k])) && (n < |s| ==> !IsVarChar(s[n]))
    ensures NameLength(s) == n
  {
  }

  // ----- What the specification means

  /** The tokens cover the script, they depend on which names are known but not
      on their values, and the expansion replaces each reference in place. So no
      inserted value is ever scanned again. */
  lemma {:induction false} ExpansionRendersTokens(s: string, vars: map<string, string>)
    ensures var tokens := Tokens(s, vars.Keys);
            && Known(tokens, vars.Keys)
            && Source(tokens) == s
            && Expand(s, vars) == Render(tokens, vars)
  {
    hide FirstToken, RenderToken;
    if s == "" {
    } else {
      var t := FirstToken(s, vars.Keys);
      var rest := s[|t.text|..];
      ExpansionRendersTokens(rest, vars);
      var tokens := Tokens(s, vars.Keys);
      assert tokens[1..] == Tokens(rest, vars.Keys);
      assert s == t.text + rest;
    }
  }

  predicate HasReference(tokens: seq<Token>) {
    exists k :: 0 <= k < |tokens| && tokens[k].Reference?
  }

  /** With no matching variable the output is the script itself. */
  lemma {:induction false} NoReferenceNoChange(s: string, vars: map<string, string>)
    requires !HasReference(Tokens(s, vars.Keys))
    ensures Expand(s, vars) == s
  {
    if s == "" {
    } else {
      var t := FirstToken(s, vars.Keys);
      var rest := s[|t.text|..];
      var tokens := Tokens(s, vars.Keys);
      assert tokens[0] == t;
      forall k | 0 <= k < |Tokens(rest, vars.Keys)| ensures !Tokens(rest, vars.Keys)[k].Reference? {
        assert tokens[k + 1] == Tokens(rest, vars.Keys)[k];
      }
      NoReferenceNoChange(rest, vars);
      assert s == t.text + rest;
    }
  }

  // ----- The expansion as equations

  predicate NameStart(c: char) {
    c == '_' || 'A' <= c <= 'Z' || 'a' <= c <= 'z'
  }

  predicate NameChar(c: char) {
    NameStart(c) || '0' <= c <= '9'
  }

  /** A name of a shell variable: letters, digits and underscores, no digit first. */
  predicate ShellName(n: string) {
    n != "" && NameStart(n[0]) && forall k :: 0 <= k < |n| ==> NameChar(n[k])
  }

  /** The text cannot go on with a name. */
  predicate EndsName(rest: string) {
    rest == "" || !NameChar(rest[0])
  }

  /** Text up to a '$' stays as it is. */
  lemma TextStays(text: string, rest: string, vars: map<string, string>)
    requires '$' !in text
    ensures Expand(text + rest, vars) == text + Expand(rest, vars)
  {
    PlainPrefix(text, rest, vars);
  }

  /** $NAME: the longest name counts. It is replaced if it is known, and otherwise
      stays as it is, also if it begins with a known name. */
  lemma NameIsReplaced(n: string, rest: string, vars: map<string, string>)
    requires ShellName(n) && EndsName(rest)
    ensures Expand("$" + n + rest, vars) == (if n in vars then vars[n] else "$" + n) + Expand(rest, vars)
  {
    hide Expand, FirstToken;
    var s := "$" + n + rest;
    assert s[1..] == n + rest && s[1..1 + |n|] == n && s[..1 + |n|] == "$" + n;
    assert s[0] == '$' && s[1] == n[0];
    NameLengthIs(s[1..], |n|);
    NameToken(s, 1 + |n|, vars.Keys);
    TokenStep("$" + n, rest, if n in vars then Reference(n, "$" + n) else Text("$" + n), vars);
  }

  /** ${NAME}: replaced if it is known; otherwise the '$' stays and the scan goes on
      behind it. */
  lemma BracedNameIsReplaced(n: string, rest: string, vars: map<string, string>)
    requires '}' !in n
    ensures Expand("${" + n + "}" + rest, vars) ==
            if n in vars then vars[n] + Expand(rest, vars) else "${" + Expand(n + "}" + rest, vars)
  {
    hide Expand, FirstToken;
    if n in vars {
      BracedReference(n, rest, vars);
    } else {
      var s := "{" + (n + "}" + rest);
      UnknownBraces(n, rest, vars.Keys);
      assert "${" + n + "}" + rest == "$" + s;
      hide IsBraced;
      LoneDollar(s, vars);
      TextStays("{", n + "}" + rest, vars);
    }
  }

  lemma UnknownBraces(n: string, rest: string, names: set<string>)
    requires '}' !in n && n !in names
    ensures !IsBraced("${" + n + "}" + rest, names)
  {
    var s := "${" + n + "}" + rest;
    assert s[2..] == n + "}" + rest && s[2..2 + |n|] == n;
    BraceIndexIs(s[2..], |n|);
  }

  /** Any other '$' stays: at the end, before a character that starts no name, and
      before a brace that is never closed. */
  lemma LoneDollar(rest: string, vars: map<string, string>)
    requires !IsBraced("$" + rest, vars.Keys) && (rest == "" || !NameStart(rest[0]))
    ensures Expand("$" + rest, vars) == "$" + Expand(rest, vars)
  {
    hide Expand;
    assert ("$" + rest)[..1] == "$";
    TokenStep("$", rest, Text("$"), vars);
  }

  lemma OtherDollarStays(rest: string, vars: map<string, string>)
    requires rest == "" || (!NameStart(rest[0]) && (rest[0] == '{' ==> '}' !in rest))
    ensures Expand("$" + rest, vars) == "$" + Expand(rest, vars)
  {
    hide Expand, IsBraced;
    NoBraceStep("$" + rest, 0, vars);
    assert ("$" + rest)[0..] == "$" + rest;
    LoneDollar(rest, vars);
  }

  // ----- Idempotence

  /** Names use no '$', and values use no character of a name and none of '$', '{'
      and '}'. */
  ghost predicate Harmless(vars: map<string, string>) {
    && (forall n :: n in vars ==> '$' !in n)
    && (forall n, c :: n in vars && c in vars[n] ==> c != '$' && c != '{' && c != '}')
    && (forall n, m, c :: n in vars && m in vars && c in vars[n] ==> c !in m)
  }

  ghost predicate NoEmptyValue(vars: map<string, string>) {
    forall n :: n in vars ==> vars[n] != ""
  }

  /** Values do not look like parts of a template, and none is empty. */
  ghost predicate Inert(vars: map<string, string>) {
    Harmless(vars) && NoEmptyValue(vars)
  }

  /** Characters other than '$' pass through the scanner. */
  lemma {:induction false} PlainPrefix(p: string, s: string, vars: map<string, string>)
    requires '$' !in p
    ensures Expand(p + s, vars) == p + Expand(s, vars)
  {
    if p == "" {
      assert p + s == s;
    } else {
      PlainCharacter(p + s, vars);
      hide Expand, FirstToken;
      assert (p + s)[1..] == p[1..] + s;
      PlainPrefix(p[1..], s, vars);
      calc {
        Expand(p + s, vars);
        [p[0]] + Expand(p[1..] + s, vars);
        [p[0]] + (p[1..] + Expand(s, vars));
        ([p[0]] + p[1..]) + Expand(s, vars);
        { assert p == [p[0]] + p[1..]; }
        p + Expand(s, vars);
      }
    }
  }

  lemma PlainCharacter(s: string, vars: map<string, string>)
    requires s != "" && s[0] != '$'
    ensures Expand(s, vars) == [s[0]] + Expand(s[1..], vars)
  {
  }

  /** What is left of a stable text after plain characters is stable. */
  lemma StableSuffix(o: string, n: nat, vars: map<string, string>)
    requires n <= |o| && '$' !in o[..n]
    requires Expand(o, vars) == o
    ensures Expand(o[n..], vars) == o[n..]
  {
    PlainPrefix(o[..n], o[n..], vars);
    assert o == o[..n] + o[n..];
  }

  /** Where an expansion starts with a character its script does not start with,
      that character belongs to a value. */
  lemma FirstCharacter(s: string, vars: map<string, string>)
    requires Inert(vars) && Expand(s, vars) != ""
    ensures s != ""
    ensures var c := Expand(s, vars)[0];
            c == s[0] || exists n :: n in vars && c in vars[n]
  {
  }

  ghost function BeforeBrace(s: string): string {
    s[..BraceIndex(s)]
  }

  lemma BeforeBraceStep(s: string)
    requires s != "" && s[0] != '}'
    ensures BraceIndex(s) < |s| <==> BraceIndex(s[1..]) < |s[1..]|
    ensures BeforeBrace(s) == [s[0]] + BeforeBrace(s[1..])
  {
  }

  /** Scanning for '}' in an expansion finds a known name only where scanning
      the script finds the same one; `done` is the part already read. */
  lemma {:induction false} BracedNameComesFromScript(u: string, done: string, vars: map<string, string>)
    requires Inert(vars)
    requires var o := Expand(u, vars); BraceIndex(o) < |o| && done + BeforeBrace(o) in vars
    ensures BraceIndex(u) < |u| && BeforeBrace(u) == BeforeBrace(Expand(u, vars))
  {
    var o := Expand(u, vars);
    FirstCharacter(u, vars);
    hide Expand, FirstToken;
    if o[0] == '}' {
      assert u[0] == '}';
    } else {
      BeforeBraceStep(o);
      hide BeforeBrace, BraceIndex;
      var c := o[0];
      var name := done + BeforeBrace(o);
      assert c == name[|done|] && c in name;
      assert c == u[0] && c != '$';
      PlainCharacter(u, vars);
      assert o[1..] == Expand(u[1..], vars);
      assert name == (done + [c]) + BeforeBrace(o[1..]);
      BracedNameComesFromScript(u[1..], done + [c], vars);
      BeforeBraceStep(u);
    }
  }

  /** `text` is a literal token that starts with '$', followed by `rest`. */
  ghost predicate DollarToken(text: string, rest: string, vars: map<string, string>) {
    && text != "" && text[0] == '$'
    && !IsBraced(text + rest, vars.Keys)
    && (|text| > 1 ==> IsVarStart(text[1]) && text[1..] !in vars && forall k :: 1 <= k < |text| ==> IsVarChar(text[k]))
    && (rest != "" ==> if |text| > 1 then !IsVarChar(rest[0]) else !IsVarStart(rest[0]))
  }

  lemma FirstTokenIsDollar(s: string, vars: map<string, string>)
    requires s != "" && s[0] == '$' && FirstToken(s, vars.Keys).Text?
    ensures var text := FirstToken(s, vars.Keys).text; DollarToken(text, s[|text|..], vars)
  {
    var text := FirstToken(s, vars.Keys).text;
    assert s == text + s[|text|..];
  }

  /** What the scanner does at a '$' that opens no reference. */
  lemma ScanDollar(e: string, vars: map<string, string>)
    requires e != "" && e[0] == '$' && !IsBraced(e, vars.Keys)
    ensures |e| < 2 || !IsVarStart(e[1]) ==> Expand(e, vars) == [e[0]] + Expand(e[1..], vars)
    ensures |e| >= 2 && IsVarStart(e[1]) ==>
      var n := NameLength(e[1..]);
      e[1..1 + n] !in vars ==> Expand(e, vars) == e[..1 + n] + Expand(e[1 + n..], vars)
  {
    if |e| < 2 || !IsVarStart(e[1]) {
      assert FirstToken(e, vars.Keys) == Text([e[0]]);
    }
  }

  /** Where the script after a '$' token is expanded, its braces still name
      nothing known. */
  lemma NotBracedAgain(text: string, rest: string, vars: map<string, string>)
    requires Inert(vars) && DollarToken(text, rest, vars)
    ensures !IsBraced(text + Expand(rest, vars), vars.Keys)
  {
    hide Expand, FirstToken;
    var o := Expand(rest, vars);
    var e := text + o;
    if |e| > 2 && e[1] == '{' {
      assert text == "$" && o[0] == '{';
      FirstCharacter(rest, vars);
      BracesComeFromScript(rest, vars);
    }
  }

  lemma BracesComeFromScript(rest: string, vars: map<string, string>)
    requires Inert(vars) && rest != "" && rest[0] == '{'
    ensures IsBraced("$" + Expand(rest, vars), vars.Keys) ==> IsBraced("$" + rest, vars.Keys)
  {
    hide *;
    PlainCharacter(rest, vars);
    var e, s := "$" + Expand(rest, vars), "$" + rest;
    assert e[2..] == Expand(rest[1..], vars) && s[2..] == rest[1..];
    BracedMeans(e, vars.Keys);
    BracedMeans(s, vars.Keys);
    if IsBraced(e, vars.Keys) {
      var name := BeforeBrace(e[2..]);
      assert "" + name == name;
      BracedNameComesFromScript(rest[1..], "", vars);
    }
  }

  lemma BracedMeans(s: string, names: set<string>)
    requires |s| >= 2 && s[0] == '$' && s[1] == '{'
    ensures IsBraced(s, names) <==> BraceIndex(s[2..]) < |s[2..]| && BeforeBrace(s[2..]) in names
  {
    hide BraceIndex;
    assert BraceIndex(s[2..]) < |s| - 2 ==> s[2..2 + BraceIndex(s[2..])] == s[2..][..BraceIndex(s[2..])];
  }

  lemma ValuesAvoidNames(vars: map<string, string>, c: char)
    requires Inert(vars)
    ensures (exists n :: n in vars && c in vars[n]) ==> forall m :: m in vars ==> c !in m
  {
  }

  /** The name scanned at a '$' token before an expansion is still unknown: it
      is the old name, or it takes in a character of a value. */
  lemma LongerNameIsUnknown(text: string, rest: string, vars: map<string, string>)
    requires Inert(vars) && DollarToken(text, rest, vars)
    requires var e := text + Expand(rest, vars); |e| >= 2 && IsVarStart(e[1])
    ensures var e := text + Expand(rest, vars);
            var n := NameLength(e[1..]);
            n >= |text| - 1 && e[1..1 + n] !in vars
  {
    hide Expand, FirstToken, IsBraced, Inert;
    var o := Expand(rest, vars);
    if o != "" {
      FirstCharacter(rest, vars);
      ValuesAvoidNames(vars, o[0]);
    }
    var e := text + o;
    var name := e[1..];
    var n := NameLength(name);
    hide NameLength;
    var k := n + 1 - |text|;
    if k > 0 {
      assert name[|text| - 1] == o[0];
      assert o[0] in e[1..1 + n];
    } else {
      assert e[1..1 + n] == text[1..];
    }
  }

  lemma DollarTokenIsStable(text: string, rest: string, vars: map<string, string>)
    requires Inert(vars) && DollarToken(text, rest, vars)
    requires Expand(Expand(rest, vars), vars) == Expand(rest, vars)
    ensures Expand(text + Expand(rest, vars), vars) == text + Expand(rest, vars)
  {
    hide Expand, FirstToken, Inert, IsBraced;
    var o := Expand(rest, vars);
    var e := text + o;
    NotBracedAgain(text, rest, vars);
    ScanDollar(e, vars);
    if |e| >= 2 && IsVarStart(e[1]) {
      LongerNameIsUnknown(text, rest, vars);
      var n := NameLength(e[1..]);
      var k := n + 1 - |text|;
      forall j | 0 <= j < k ensures o[j] != '$' {
        assert e[1..][|text| - 1 + j] == o[j];
      }
      assert '$' !in o[..k];
      StableSuffix(o, k, vars);
      assert e[1 + n..] == o[k..];
      assert e == e[..1 + n] + e[1 + n..];
    } else {
      assert |text| == 1;
      assert e[1..] == o;
    }
  }

  /** Expanding twice is expanding once, for every script. */
  lemma {:induction false} ExpansionIsIdempotent(s: string, vars: map<string, string>)
    requires Inert(vars)
    ensures Expand(Expand(s, vars), vars) == Expand(s, vars)
    decreases |s|
  {
    if s == "" {
    } else {
      var t := FirstToken(s, vars.Keys);
      var rest := s[|t.text|..];
      var o := Expand(rest, vars);
      ExpansionIsIdempotent(rest, vars);
      if t.Reference? {
        PlainPrefix(vars[t.name], o, vars);
      } else if s[0] != '$' {
        PlainPrefix(t.text, o, vars);
      } else {
        FirstTokenIsDollar(s, vars);
        DollarTokenIsStable(t.text, rest, vars);
      }
    }
  }

  /** Expanding the script again changes nothing. */
  ghost predicate Stable(s: string, vars: map<string, string>) {
    Expand(Expand(s, vars), vars) == Expand(s, vars)
  }

  /** Exactly when that is: with harmless values, and names without '}', every
      script is stable if and only if no value is empty. */
  lemma StableIffNoEmptyValue(vars: map<string, string>)
    requires Harmless(vars) && forall n :: n in vars ==> '}' !in n
    ensures (forall s :: Stable(s, vars)) <==> NoEmptyValue(vars)
  {
    hide Expand;
    if NoEmptyValue(vars) {
      hide Harmless;
      forall s ensures Stable(s, vars) {
        ExpansionIsIdempotent(s, vars);
      }
    } else {
      var n :| n in vars && vars[n] == "";
      EmptyValueBreaks(n, vars);
      BracesAreText(n);
      hide Harmless, NoEmptyValue;
      assert !Stable("$${" + n + "}{" + n + "}", vars);
    }
  }

  lemma BracesAreText(n: string)
    ensures "${" + n + "}" != ""
  {
  }

  /** With an empty value, texts can close up to a new reference. */
  lemma EmptyValueBreaks(n: string, vars: map<string, string>)
    requires n in vars && vars[n] == "" && '$' !in n && '}' !in n
    ensures Expand("$${" + n + "}{" + n + "}", vars) == "${" + n + "}"
    ensures Expand("${" + n + "}", vars) == ""
  {
    hide Expand, FirstToken;
    var braced, plain := "${" + n + "}", "{" + n + "}";
    EmptyExpansion(vars);
    BracedReference(n, plain, vars);
    BracedReference(n, "", vars);
    assert braced + "" == braced && plain + "" == plain;
    PlainPrefix(plain, "", vars);
    DollarDollar(braced + plain, vars);
    assert "$" + (braced + plain) == "$${" + n + "}{" + n + "}";
    assert "$" + plain == braced;
  }

  lemma EmptyExpansion(vars: map<string, string>)
    ensures Expand("", vars) == ""
  {
  }

  lemma BracedReference(n: string, rest: string, vars: map<string, string>)
    requires n in vars && '}' !in n
    ensures Expand("${" + n + "}" + rest, vars) == vars[n] + Expand(rest, vars)
  {
    hide Expand;
    var text := "${" + n + "}";
    var s := text + rest;
    BraceIndexIs(s[2..], |n|);
    assert s[2..2 + |n|] == n && s[..|n| + 3] == text;
    TokenStep(text, rest, Reference(n, text), vars);
  }

  lemma DollarDollar(rest: string, vars: map<string, string>)
    requires rest != "" && rest[0] == '$'
    ensures Expand("$" + rest, vars) == "$" + Expand(rest, vars)
  {
    hide Expand;
    assert ("$" + rest)[..1] == "$";
    TokenStep("$", rest, Text("$"), vars);
  }

  lemma TokenStep(text: string, rest: string, t: Token, vars: map<string, string>)
    requires text != "" && FirstToken(text + rest, vars.Keys) == t && t.text == text
    ensures Expand(text + rest, vars) == RenderToken(t, vars) + Expand(rest, vars)
  {
    assert (text + rest)[|text|..] == rest;
    hide FirstToken, RenderToken;
  }

  // ----- The variables of a mapping

  /** notifyTemplateVars, given the printed public address and port and the
      joined endpoint. */
  function NotifyTemplateVars(publicIP: string, publicPort: string, endpoint: string): map<string, string> {
    map["NATCAT_PUBLIC_ADDRESS" := publicIP, "NATCAT_PUBLIC_IP" := publicIP,
        "NATCAT_PUBLIC_PORT" := publicPort, "NATCAT_PUBLIC_ENDPOINT" := endpoint]
  }

  /** What addresses, ports and endpoints print as: digits, lower-case letters,
      '.', ':', '[' and ']', and also "<nil>" for no address. */
  predicate IsAddressChar(c: char) {
    '0' <= c <= '9' || 'a' <= c <= 'z' || c in ".:[]<>-"
  }

  predicate IsAddressText(s: string) {
    s != "" && forall k :: 0 <= k < |s| ==> IsAddressChar(s[k])
  }

  predicate UpperCase(s: string) {
    forall k :: 0 <= k < |s| ==> 'A' <= s[k] <= 'Z' || s[k] == '_'
  }

  lemma UpperCaseNamesAreInert(vars: map<string, string>)
    requires forall n :: n in vars ==> UpperCase(n) && IsAddressText(vars[n])
    ensures Inert(vars)
  {
  }

  lemma TemplateNamesAreUpperCase()
    ensures UpperCase("NATCAT_PUBLIC_ADDRESS") && UpperCase("NATCAT_PUBLIC_IP")
    ensures UpperCase("NATCAT_PUBLIC_PORT") && UpperCase("NATCAT_PUBLIC_ENDPOINT")
  {
  }

  const DOCUMENTED: set<string> :=
    {"NATCAT_PUBLIC_ADDRESS", "NATCAT_PUBLIC_IP", "NATCAT_PUBLIC_PORT", "NATCAT_PUBLIC_ENDPOINT"}

  /** The variables that the documentation names are the ones that are known, and
      both forms of a reference to them are replaced. */
  lemma MappingVariablesAreReplaced(publicIP: string, publicPort: string, endpoint: string, n: string, rest: string)
    requires n in DOCUMENTED
    ensures var vars := NotifyTemplateVars(publicIP, publicPort, endpoint);
            && vars.Keys == DOCUMENTED
            && (EndsName(rest) ==> Expand("$" + n + rest, vars) == vars[n] + Expand(rest, vars))
            && Expand("${" + n + "}" + rest, vars) == vars[n] + Expand(rest, vars)
  {
    hide Expand, EndsName, ShellName;
    var vars := NotifyTemplateVars(publicIP, publicPort, endpoint);
    TemplateNamesAreShellNames();
    ShellNamesHaveNoBrace(n);
    assert vars.Keys == DOCUMENTED;
    if EndsName(rest) {
      NameIsReplaced(n, rest, vars);
    }
    BracedNameIsReplaced(n, rest, vars);
  }

  lemma MappingValues(publicIP: string, publicPort: string, endpoint: string)
    ensures var vars := NotifyTemplateVars(publicIP, publicPort, endpoint);
            && vars["NATCAT_PUBLIC_ADDRESS"] == publicIP && vars["NATCAT_PUBLIC_IP"] == publicIP
            && vars["NATCAT_PUBLIC_PORT"] == publicPort && vars["NATCAT_PUBLIC_ENDPOINT"] == endpoint
  {
  }

  lemma ShellNamesHaveNoBrace(n: string)
    requires ShellName(n)
    ensures '}' !in n
  {
  }

  lemma TemplateNamesAreShellNames()
    ensures ShellName("NATCAT_PUBLIC_ADDRESS") && ShellName("NATCAT_PUBLIC_IP")
    ensures ShellName("NATCAT_PUBLIC_PORT") && ShellName("NATCAT_PUBLIC_ENDPOINT")
  {
  }

  /** So a script expanded for a mapping never changes when expanded again. */
  lemma MappingExpansionIsIdempotent(s: string, publicIP: string, publicPort: string, endpoint: string)
    requires IsAddressText(publicIP) && IsAddressText(publicPort) && IsAddressText(endpoint)
    ensures var vars := NotifyTemplateVars(publicIP, publicPort, endpoint);
            Expand(Expand(s, vars), vars) == Expand(s, vars)
  {
    hide Expand, UpperCase, IsAddressText, Inert;
    var vars := NotifyTemplateVars(publicIP, publicPort, endpoint);
    TemplateNamesAreUpperCase();
    UpperCaseNamesAreInert(vars);
    ExpansionIsIdempotent(s, vars);
  }
}
