/** The lines of a configuration as they stand in the file, with any white space around them. */
module NginxLines {
  import opened Text
  import opened Nginx
  import opened NginxTree
  import opened NginxDomains

  // ---- trimming ----

  /** Nothing to trim. */
  predicate Neat(s: string) {
    s == "" || (!IsSpace(s[0]) && !IsSpace(s[|s| - 1]))
  }

  lemma {:induction false} TrimLeftIs(pre: string, s: string)
    requires Spaces(pre) && (s == "" || !IsSpace(s[0]))
    ensures TrimLeft(pre + s) == s
  {
    if pre == "" {
      assert pre + s == s;
    } else {
      assert (pre + s)[1..] == pre[1..] + s;
      TrimLeftIs(pre[1..], s);
    }
  }

  lemma {:induction false} TrimEndIs(s: string, post: string)
    requires Spaces(post) && (s == "" || !IsSpace(s[|s| - 1]))
    ensures TrimEnd(s + post) == s
  {
    if post == "" {
      assert s + post == s;
    } else {
      var n := |post| - 1;
      assert (s + post)[..|s + post| - 1] == s + post[..n];
      TrimEndIs(s, post[..n]);
    }
  }

  /** White space around a neat text is exactly what is trimmed. */
  lemma TrimIs(pre: string, s: string, post: string)
    requires Spaces(pre) && Spaces(post) && Neat(s)
    ensures TrimSpace(pre + s + post) == s
  {
    hide TrimLeft, TrimEnd, IsSpace;
    if s == "" {
      assert Spaces(pre + post) && pre + s + post == pre + post + "";
      TrimLeftIs(pre + post, "");
      TrimEndIs("", "");
      assert "" + "" == "";
    } else {
      assert pre + s + post == pre + (s + post);
      TrimLeftIs(pre, s + post);
      TrimEndIs(s, post);
    }
  }

  // ---- the lines of a tree are neat ----

  predicate AllNeat(lines: seq<string>) {
    forall i :: 0 <= i < |lines| ==> Neat(lines[i])
  }

  lemma NeatSum(s: string, note: string)
    requires Neat(s) && s != "" && NeatEnd(note)
    ensures Neat(s + note)
  {
  }

  lemma NeatCons(line: string, lines: seq<string>)
    requires Neat(line) && AllNeat(lines)
    ensures AllNeat([line] + lines)
  {
  }

  lemma NeatConcat(a: seq<string>, b: seq<string>)
    requires AllNeat(a) && AllNeat(b)
    ensures AllNeat(a + b)
  {
  }

  lemma Ends()
    ensures !IsSpace('s') && !IsSpace('l') && !IsSpace(';') && !IsSpace('{') && !IsSpace('}') && !IsSpace('#')
  {
  }

  lemma DirectiveNeat(d: Directive, note: string)
    requires DirectiveOk(d) && NeatEnd(note)
    ensures Neat(TextOf(d) + note)
  {
    hide IsSpace, ArgsText, Balanced, NoDip, Hides, NoComment, StartsServer;
    Ends();
    var s := TextOf(d);
    assert s != "" && Neat(s);
    NeatSum(s, note);
  }

  lemma ServerNeat(gap: string, more: string)
    requires NeatEnd(more)
    ensures Neat(ServerText(gap, more))
  {
    hide IsSpace;
    Ends();
    var s := "server" + (gap + "{");
    assert s[0] == 's' && s[|s| - 1] == '{';
    NeatSum(s, more);
    assert s + more == ServerText(gap, more);
  }

  lemma MarkNeat(mark: string, note: string)
    requires mark in {"{", "}", "server"} && NeatEnd(note)
    ensures Neat(mark + note)
  {
    Ends();
    assert !IsSpace('r');
    NeatSum(mark, note);
  }

  lemma CommentNeat(text: string)
    requires IsComment(text) && NeatEnd(text)
    ensures Neat(text)
  {
    hide IsSpace;
    Ends();
    if text != "" {
      assert text[0] == "#"[0];
    }
  }

  lemma BraceEnd(s: string, note: string)
    requires NeatEnd(note)
    ensures NeatEnd(s + "}" + note)
  {
    Ends();
  }

  lemma {:induction false} RenderNeat(items: Items)
    requires Tidy(items)
    ensures AllNeat(Render(items))
  {
    hide LineOk, HeadOk, CloserOk, TextOf, ServerText, StmtsOk, AllNeat, NeatEnd, IsComment, IsSpace, Neat, NoteOk,
      Balanced;
    NoneNeat();
    match items
    case End =>
    case Comment(text, rest) =>
      CommentNeat(text);
      RenderNeat(rest);
      NeatCons(text, Render(rest));
    case Line(body, note, rest) =>
      LineDirective(body, note);
      DirectiveNeat(body, note);
      RenderNeat(rest);
      NeatCons(TextOf(body) + note, Render(rest));
    case Server(gap, note, children, endNote, rest) =>
      ServerNeat(gap, note);
      RenderNeat(children);
      RenderNeat(rest);
      BlockNeat(ServerText(gap, note), children, endNote, rest);
    case OneLine(gap, stmts, tail, note, rest) =>
      BraceEnd(StmtsText(stmts) + tail, note);
      ServerNeat(gap, StmtsText(stmts) + tail + "}" + note);
      RenderNeat(rest);
      NeatCons(OneLineText(gap, stmts, tail, note), Render(rest));
    case SplitServer(headNote, note, children, endNote, rest) =>
      MarkNeat("server", headNote);
      MarkNeat("{", note);
      RenderNeat(children);
      RenderNeat(rest);
      BlockNeat("{" + note, children, endNote, rest);
      NeatCons("server" + headNote, ["{" + note] + (Render(children) + (["}" + endNote] + Render(rest))));
    case Block(code, note, children, endNote, rest) =>
      CodeNeat(code, note);
      RenderNeat(children);
      RenderNeat(rest);
      BlockNeat(code + note, children, endNote, rest);
  }

  lemma BlockNeat(header: string, children: Items, endNote: string, rest: Items)
    requires Neat(header) && NeatEnd(endNote) && AllNeat(Render(children)) && AllNeat(Render(rest))
    ensures AllNeat([header] + (Render(children) + (["}" + endNote] + Render(rest))))
  {
    hide AllNeat, Render, Neat, NeatEnd;
    MarkNeat("}", endNote);
    NeatCons("}" + endNote, Render(rest));
    NeatConcat(Render(children), ["}" + endNote] + Render(rest));
    NeatCons(header, Render(children) + (["}" + endNote] + Render(rest)));
  }

  lemma NoneNeat()
    ensures AllNeat([])
  {
  }

  lemma LineDirective(d: Directive, note: string)
    requires LineOk(d, note)
    ensures DirectiveOk(d)
  {
  }

  lemma CodeNeat(code: string, note: string)
    requires HeaderOk(code, note) && !IsSpace(code[0]) && NeatEnd(note)
    ensures Neat(code + note)
  {
    hide IsSpace;
    Ends();
    NeatSum(code, note);
  }

  // ---- from the file to the domains ----

  /** The line is the text with white space around it. */
  ghost predicate Indents(line: string, text: string) {
    exists pre: string, post: string :: Spaces(pre) && Spaces(post) && line == pre + text + post
  }

  ghost predicate AllIndent(lines: seq<string>, texts: seq<string>) {
    |lines| == |texts| && forall i :: 0 <= i < |lines| ==> Indents(lines[i], texts[i])
  }

  lemma {:induction false} TrimmedIs(lines: seq<string>, texts: seq<string>)
    requires AllIndent(lines, texts) && AllNeat(texts)
    ensures Trimmed(lines) == texts
  {
    hide Neat, TrimSpace, Spaces;
    if lines != [] {
      var n := |lines| - 1;
      assert forall i :: 0 <= i < n ==> lines[..n][i] == lines[i] && texts[..n][i] == texts[i];
      TrimmedIs(lines[..n], texts[..n]);
      var pre: string, post: string :| Spaces(pre) && Spaces(post) && lines[n] == pre + texts[n] + post;
      TrimIs(pre, texts[n], post);
      assert texts == texts[..n] + [texts[n]];
    }
  }

  /** For every tree of blocks and comments, however its lines are indented, the domains returned are the valid names of
      the server blocks read that listen with TLS, each once, in the order of first appearance. */
  method ParseConfiguration(ghost items: Items, lines: seq<string>, isIP: string -> bool) returns (domains: seq<string>)
    requires Tidy(items) && AllIndent(lines, Render(items))
    ensures domains == Unique(ValidNames(TlsNames(items, false), isIP))
    ensures forall x :: x in domains <==> Serves(items, x) && IsValidSSLDomain(x, isIP)
  {
    hide Tidy, Render, AllIndent, Scan, Trimmed, Unique, ValidNames, TlsNames, Serves, IsValidSSLDomain;
    domains := ParseNginxDomains(lines, isIP);
    RenderNeat(items);
    TrimmedIs(lines, Render(items));
    ScannerIsRight(items, isIP);
    forall x
      ensures x in domains <==> Serves(items, x) && IsValidSSLDomain(x, isIP)
    {
      FoundExactly(items, isIP, x);
    }
  }

  /** Blanks and tabs are white space; letters, digits and punctuation are not. */
  lemma WhiteSpace(c: char)
    ensures c == ' ' || c == '\t' ==> IsSpace(c)
    ensures '!' <= c <= '~' ==> !IsSpace(c)
  {
  }

  // ---- an indented block ----

  const INSIDE: Items := Line(TLS, "", Line(NAMED, "", End))
  const EXAMPLE: Items := Server(" ", "", INSIDE, "", End)

  /** A TLS server block, indented with blanks and a tab: its name is found. */
  method IndentedExample(isIP: string -> bool) returns (domains: seq<string>)
    requires !isIP("a.b")
    ensures domains == ["a.b"]
  {
    hide Tidy, Render, AllIndent, TlsNames, Unique, ValidNames, IsValidSSLDomain, Serves, EXAMPLE;
    var lines := ["server {", "    listen 443;", "\tserver_name a.b;", "}"];
    ExampleTidy();
    ExampleLines(lines);
    domains := ParseConfiguration(EXAMPLE, lines, isIP);
    ExampleNames(isIP);
  }

  lemma ExampleTidy()
    ensures Tidy(EXAMPLE)
  {
    hide DirectiveOk, IsTls, Named;
    WitnessOk();
    WhiteSpace(' ');
  }

  lemma ExampleTexts()
    ensures TextOf(TLS) == "listen 443;" && TextOf(NAMED) == "server_name a.b;" && ServerText(" ", "") == "server {"
  {
    assert TLS.args[1..] == [] && NAMED.args[1..] == [];
    assert ArgsText(TLS.args) == " 443" && ArgsText(NAMED.args) == " a.b";
  }

  lemma ExampleRendered()
    ensures Render(EXAMPLE) == ["server {", "listen 443;", "server_name a.b;", "}"]
  {
    hide TextOf, ServerText;
    ExampleTexts();
    assert TextOf(TLS) + "" == TextOf(TLS) && TextOf(NAMED) + "" == TextOf(NAMED) && "}" + "" == "}";
    assert Render(INSIDE) == [TextOf(TLS), TextOf(NAMED)];
    assert Render(EXAMPLE) == [ServerText(" ", "")] + (Render(INSIDE) + (["}"] + []));
  }

  lemma ExampleLines(lines: seq<string>)
    requires lines == ["server {", "    listen 443;", "\tserver_name a.b;", "}"]
    ensures AllIndent(lines, Render(EXAMPLE))
  {
    hide IsSpace, Render, Indents;
    WhiteSpace(' ');
    WhiteSpace('\t');
    ExampleRendered();
    IndentedBy("", "server {", lines[0]);
    IndentedBy("    ", "listen 443;", lines[1]);
    IndentedBy("\t", "server_name a.b;", lines[2]);
    IndentedBy("", "}", lines[3]);
  }

  lemma IndentedBy(pre: string, text: string, line: string)
    requires Spaces(pre) && line == pre + text
    ensures Indents(line, text)
  {
    assert Spaces("") && line == pre + text + "";
  }

  lemma ExampleNames(isIP: string -> bool)
    requires !isIP("a.b")
    ensures Unique(ValidNames(TlsNames(EXAMPLE, false), isIP)) == ["a.b"]
  {
    hide Unique, ValidNames, SslNames;
    ExampleBlock();
    SslNamesOne(ServerBlock(true, ["a.b"]));
    OneName(isIP);
  }

  lemma ExampleBlock()
    ensures Servers(EXAMPLE, false) == [ServerBlock(true, ["a.b"])]
  {
    hide IsTls, DirectiveOk, Named;
    WitnessOk();
    assert NAMED.args[1..] == [] && Words(NAMED.args) == ["a.b"];
    assert Names(INSIDE, false) == ["a.b"];
    assert Ssl(INSIDE);
  }

  lemma OneName(isIP: string -> bool)
    requires !isIP("a.b")
    ensures Unique(ValidNames(["a.b"], isIP)) == ["a.b"]
  {
    hide IsValidSSLDomain, TrimSpace, IsSpace;
    WitnessValid(isIP);
    WhiteSpace('a');
    WhiteSpace('.');
    WhiteSpace('b');
    TrimWord("a.b");
    assert ["a.b"][..0] == [];
    assert ValidNames(["a.b"], isIP) == ["a.b"];
  }
}
