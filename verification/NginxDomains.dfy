/** The domains found in a well-formed configuration are exactly those it serves over TLS. */
module NginxDomains {
  import opened Text
  import opened Nginx
  import opened NginxTree

  predicate AllWords(names: seq<string>) {
    forall i :: 0 <= i < |names| ==> NoSpace(names[i])
  }

  // ---- filtering ----

  lemma {:induction false} ValidConcat(a: seq<string>, b: seq<string>, isIP: string -> bool)
    ensures ValidNames(a + b, isIP) == ValidNames(a, isIP) + ValidNames(b, isIP)
  {
    if b == [] {
      assert a + b == a;
    } else {
      var n := |b| - 1;
      ValidConcat(a, b[..n], isIP);
      assert (a + b)[..|a + b| - 1] == a + b[..n];
    }
  }

  lemma {:induction false} ValidMembers(names: seq<string>, isIP: string -> bool, x: string)
    requires AllWords(names)
    ensures x in ValidNames(names, isIP) <==> x in names && IsValidSSLDomain(x, isIP)
  {
    if names != [] {
      var n := |names| - 1;
      ValidMembers(names[..n], isIP, x);
      TrimWord(names[n]);
      assert names == names[..n] + [names[n]];
    }
  }

  lemma {:induction false} NoneValid(names: seq<string>, isIP: string -> bool)
    requires AllWords(names) && forall i :: 0 <= i < |names| ==> '.' !in names[i]
    ensures ValidNames(names, isIP) == []
  {
    if names != [] {
      var n := |names| - 1;
      NoneValid(names[..n], isIP);
      TrimWord(names[n]);
      ContainsChar(names[n], '.');
    }
  }

  /** Names read by mistake have no dot, so they are never valid. */
  lemma StraysInvalid(text: string, isIP: string -> bool)
    requires HasPrefix(text, "server_name") ==> '.' !in text
    ensures ValidNames(Strays(text), isIP) == []
  {
    if HasPrefix(text, "server_name") {
      var s := TrimRight(text[11..], ';');
      TrimRightPart(text[11..], ';');
      forall i | 0 <= i < |Fields(s)| ensures NoSpace(Fields(s)[i]) && '.' !in Fields(s)[i] {
        FieldsAreWords(s, i);
      }
      NoneValid(Fields(s), isIP);
    }
  }

  lemma ValidBoth(a: seq<string>, a': seq<string>, b: seq<string>, b': seq<string>, isIP: string -> bool)
    requires ValidNames(a, isIP) == ValidNames(a', isIP) && ValidNames(b, isIP) == ValidNames(b', isIP)
    ensures ValidNames(a + b, isIP) == ValidNames(a' + b', isIP)
  {
    ValidConcat(a, b, isIP);
    ValidConcat(a', b', isIP);
  }

  lemma DirectiveDropsStrays(d: Directive, note: string, isIP: string -> bool)
    requires LineOk(d, note)
    ensures ValidNames(NamesOf(d, note, true), isIP) == ValidNames(NamesOf(d, note, false), isIP)
  {
    hide Balanced, OtherOk, NoteOk, ArgsOk, StartsServer, Strays;
    if d.Other? {
      StraysInvalid(d.code + note, isIP);
    }
  }

  lemma {:induction false} NamesDropStrays(items: Items, isIP: string -> bool)
    requires Tidy(items) && !HasServer(items)
    ensures ValidNames(Names(items, true), isIP) == ValidNames(Names(items, false), isIP)
  {
    hide LineOk, HeaderOk, CloserOk, NamesOf, ValidNames;
    match items
    case End =>
    case Comment(_, rest) => NamesDropStrays(rest, isIP);
    case Line(body, note, rest) =>
      NamesDropStrays(rest, isIP);
      DirectiveDropsStrays(body, note, isIP);
      ValidBoth(NamesOf(body, note, true), NamesOf(body, note, false), Names(rest, true), Names(rest, false), isIP);
    case Block(_, _, children, _, rest) =>
      NamesDropStrays(children, isIP);
      NamesDropStrays(rest, isIP);
      ValidBoth(Names(children, true), Names(children, false), Names(rest, true), Names(rest, false), isIP);
  }

  lemma {:induction false} SslNamesConcat(a: seq<ServerBlock>, b: seq<ServerBlock>)
    ensures SslNames(a + b) == SslNames(a) + SslNames(b)
  {
    if b == [] {
      assert a + b == a;
    } else {
      var n := |b| - 1;
      SslNamesConcat(a, b[..n]);
      assert (a + b)[..|a + b| - 1] == a + b[..n];
    }
  }

  lemma SslNamesOne(b: ServerBlock)
    ensures SslNames([b]) == if b.hasSSL then b.serverNames else []
  {
    assert [b][..0] == [];
  }

  /** The names of the TLS server blocks, in document order. */
  function TlsNames(items: Items, strays: bool): seq<string> {
    SslNames(Servers(items, strays))
  }

  lemma TlsNamesOfServer(b: ServerBlock, rest: seq<ServerBlock>)
    ensures SslNames([b] + rest) == (if b.hasSSL then b.serverNames else []) + SslNames(rest)
  {
    hide SslNames;
    SslNamesConcat([b], rest);
    SslNamesOne(b);
  }

  lemma {:induction false} ServersDropStrays(items: Items, isIP: string -> bool)
    requires Tidy(items)
    ensures ValidNames(TlsNames(items, true), isIP) == ValidNames(TlsNames(items, false), isIP)
  {
    hide LineOk, HeaderOk, CloserOk, ValidNames, SslNames, Names, Ssl, StmtsOk, Opens, Balanced, NoteOk;
    match items
    case End =>
    case Comment(_, rest) => ServersDropStrays(rest, isIP);
    case Line(_, _, rest) => ServersDropStrays(rest, isIP);
    case SplitServer(_, _, _, _, rest) => ServersDropStrays(rest, isIP);
    case OneLine(_, _, _, _, rest) =>
      ServersDropStrays(rest, isIP);
      TlsNamesOfServer(ServerBlock(false, []), Servers(rest, true));
      TlsNamesOfServer(ServerBlock(false, []), Servers(rest, false));
      ValidBoth([], [], TlsNames(rest, true), TlsNames(rest, false), isIP);
    case Block(_, _, children, _, rest) =>
      ServersDropStrays(children, isIP);
      ServersDropStrays(rest, isIP);
      SslNamesConcat(Servers(children, true), Servers(rest, true));
      SslNamesConcat(Servers(children, false), Servers(rest, false));
      ValidBoth(TlsNames(children, true), TlsNames(children, false), TlsNames(rest, true), TlsNames(rest, false), isIP);
    case Server(_, _, children, _, rest) =>
      ServersDropStrays(rest, isIP);
      NamesDropStrays(children, isIP);
      TlsNamesOfServer(ServerBlock(Ssl(children), Names(children, true)), Servers(rest, true));
      TlsNamesOfServer(ServerBlock(Ssl(children), Names(children, false)), Servers(rest, false));
      ValidBoth([], [], TlsNames(rest, true), TlsNames(rest, false), isIP);
      ValidBoth(Names(children, true), Names(children, false), TlsNames(rest, true), TlsNames(rest, false), isIP);
  }

  // ---- the scanner is right ----

  /** What the scanner returns for the trimmed lines of a configuration. */
  function Found(texts: seq<string>, isIP: string -> bool): seq<string> {
    Domains(Scan(START, texts).blocks, isIP)
  }

  /** The scanner returns the valid names of the server blocks with a TLS listen, each once, in the order of
      first appearance, whatever the nesting, indentation, spacing and comments; blocks on one line, or with their
      brace on the next line, add none. */
  lemma ScannerIsRight(items: Items, isIP: string -> bool)
    requires Tidy(items)
    ensures Found(Render(items), isIP) == Unique(ValidNames(TlsNames(items, false), isIP))
  {
    hide Render, Servers, Tidy, Scan, Unique, ValidNames, SslNames;
    Outside(items, START);
    assert [] + Servers(items, true) == Servers(items, true);
    ServersDropStrays(items, isIP);
  }

  predicate Named(d: Directive, x: string) {
    d.ServerName? && exists i :: 0 <= i < |d.args| && d.args[i].word == x
  }

  /** Some server_name directive at any depth of a block has the argument x. */
  predicate IsNamed(items: Items, x: string) {
    match items
    case End => false
    case Comment(_, rest) => IsNamed(rest, x)
    case Line(body, _, rest) => Named(body, x) || IsNamed(rest, x)
    case Server(_, _, _, _, rest) => IsNamed(rest, x)
    case OneLine(_, _, _, _, rest) => IsNamed(rest, x)
    case SplitServer(_, _, _, _, rest) => IsNamed(rest, x)
    case Block(_, _, children, _, rest) => IsNamed(children, x) || IsNamed(rest, x)
  }

  /** Some server block over several lines, with its brace on the first, listens with TLS and is named x. */
  predicate Serves(items: Items, x: string) {
    match items
    case End => false
    case Comment(_, rest) => Serves(rest, x)
    case Line(_, _, rest) => Serves(rest, x)
    case Server(_, _, children, _, rest) => (Ssl(children) && IsNamed(children, x)) || Serves(rest, x)
    case OneLine(_, _, _, _, rest) => Serves(rest, x)
    case SplitServer(_, _, _, _, rest) => Serves(rest, x)
    case Block(_, _, children, _, rest) => Serves(children, x) || Serves(rest, x)
  }

  predicate OneLineServes(stmts: seq<Stmt>, x: string) {
    (exists i :: 0 <= i < |stmts| && IsTls(stmts[i].body)) && (exists i :: 0 <= i < |stmts| && Named(stmts[i].body, x))
  }

  /** Some server block on one line, or with its brace on the next line, listens with TLS and is named x. */
  predicate ServesUnread(items: Items, x: string) {
    match items
    case End => false
    case Comment(_, rest) => ServesUnread(rest, x)
    case Line(_, _, rest) => ServesUnread(rest, x)
    case Server(_, _, _, _, rest) => ServesUnread(rest, x)
    case OneLine(_, stmts, _, _, rest) => OneLineServes(stmts, x) || ServesUnread(rest, x)
    case SplitServer(_, _, children, _, rest) => (Ssl(children) && IsNamed(children, x)) || ServesUnread(rest, x)
    case Block(_, _, children, _, rest) => ServesUnread(children, x) || ServesUnread(rest, x)
  }

  lemma {:induction false} WordsAre(args: seq<Arg>, x: string)
    requires ArgsOk(args)
    ensures AllWords(Words(args))
    ensures x in Words(args) <==> exists i :: 0 <= i < |args| && args[i].word == x
  {
    if args != [] {
      WordsAre(args[1..], x);
      if i :| 0 <= i < |args[1..]| && args[1..][i].word == x {
        assert args[i + 1].word == x;
      }
      if i :| 0 < i < |args| && args[i].word == x {
        assert args[1..][i - 1].word == x;
      }
    }
  }

  lemma DirectiveNames(d: Directive, note: string, x: string)
    requires LineOk(d, note)
    ensures AllWords(NamesOf(d, note, false)) && (x in NamesOf(d, note, false) <==> Named(d, x))
  {
    hide Balanced, OtherOk, NoteOk, StartsServer, Strays, NoDip;
    if d.ServerName? {
      WordsAre(d.args, x);
    }
  }

  lemma AllWordsConcat(a: seq<string>, b: seq<string>)
    requires AllWords(a) && AllWords(b)
    ensures AllWords(a + b)
  {
  }

  lemma {:induction false} NamesAre(items: Items, x: string)
    requires Tidy(items) && !HasServer(items)
    ensures AllWords(Names(items, false)) && (x in Names(items, false) <==> IsNamed(items, x))
  {
    hide LineOk, HeaderOk, CloserOk, NamesOf, Named, AllWords;
    match items
    case End => NoWords();
    case Comment(_, rest) => NamesAre(rest, x);
    case Line(body, note, rest) =>
      NamesAre(rest, x);
      DirectiveNames(body, note, x);
      AllWordsConcat(NamesOf(body, note, false), Names(rest, false));
    case Block(_, _, children, _, rest) =>
      NamesAre(children, x);
      NamesAre(rest, x);
      AllWordsConcat(Names(children, false), Names(rest, false));
  }

  lemma NoWords()
    ensures AllWords([])
  {
  }

  lemma {:induction false} TlsNamesAre(items: Items, x: string)
    requires Tidy(items)
    ensures AllWords(TlsNames(items, false)) && (x in TlsNames(items, false) <==> Serves(items, x))
  {
    hide LineOk, HeaderOk, CloserOk, SslNames, Names, Ssl, IsNamed, AllWords, StmtsOk, Opens, Balanced, NoteOk;
    NoWords();
    match items
    case End => NoBlocks();
    case Comment(_, rest) => TlsNamesAre(rest, x);
    case Line(_, _, rest) => TlsNamesAre(rest, x);
    case SplitServer(_, _, _, _, rest) => TlsNamesAre(rest, x);
    case OneLine(_, _, _, _, rest) =>
      TlsNamesAre(rest, x);
      TlsNamesOfServer(ServerBlock(false, []), Servers(rest, false));
      assert [] + TlsNames(rest, false) == TlsNames(rest, false);
    case Block(_, _, children, _, rest) =>
      TlsNamesAre(children, x);
      TlsNamesAre(rest, x);
      SslNamesConcat(Servers(children, false), Servers(rest, false));
      AllWordsConcat(TlsNames(children, false), TlsNames(rest, false));
    case Server(_, _, children, _, rest) =>
      var b := ServerBlock(Ssl(children), Names(children, false));
      NamesAre(children, x);
      TlsNamesAre(rest, x);
      TlsNamesOfServer(b, Servers(rest, false));
      AllWordsConcat(if b.hasSSL then b.serverNames else [], TlsNames(rest, false));
  }

  lemma NoBlocks()
    ensures SslNames([]) == []
  {
  }

  /** A name is returned exactly when it is a valid domain that some TLS server block over several lines, with its
      brace on the first, is named. */
  lemma FoundExactly(items: Items, isIP: string -> bool, x: string)
    requires Tidy(items)
    ensures x in Found(Render(items), isIP) <==> Serves(items, x) && IsValidSSLDomain(x, isIP)
  {
    hide Tidy, Render, Unique, ValidNames, Serves, TlsNames, IsValidSSLDomain, Found;
    ScannerIsRight(items, isIP);
    UniqueMembers(ValidNames(TlsNames(items, false), isIP), x);
    TlsNamesAre(items, x);
    ValidMembers(TlsNames(items, false), isIP, x);
  }

  /** The scanner finds every valid domain served with TLS, and nothing else, exactly when each valid domain of
      a TLS server block on one line, or with its brace on the next line, is also that of one it reads. */
  lemma CompleteExactly(items: Items, isIP: string -> bool)
    requires Tidy(items)
    ensures (forall x :: x in Found(Render(items), isIP) <==>
                           (Serves(items, x) || ServesUnread(items, x)) && IsValidSSLDomain(x, isIP))
            <==>
            (forall x :: ServesUnread(items, x) && IsValidSSLDomain(x, isIP) ==> Serves(items, x))
  {
    hide Tidy, Render, Serves, ServesUnread, IsValidSSLDomain, Found;
    forall x
      ensures x in Found(Render(items), isIP) <==> Serves(items, x) && IsValidSSLDomain(x, isIP)
    {
      FoundExactly(items, isIP, x);
    }
  }

  // ---- a domain that is missed ----

  lemma {:induction false} NoBraces(s: string)
    requires '{' !in s && '}' !in s
    ensures Balanced(s) && NoDip(s)
  {
    CountPositive(s, '{');
    CountPositive(s, '}');
    forall i | 0 <= i <= |s|
      ensures Count(s[..i], '}') <= Count(s[..i], '{')
    {
      CountPositive(s[..i], '}');
    }
  }

  const TLS: Directive := Listen([Arg(" ", "443")], "")
  const NAMED: Directive := ServerName([Arg(" ", "a.b")], "")

  lemma OneArgOk(word: string)
    requires word != "" && NoSpace(word) && word[0] != '#' && ';' !in word && '{' !in word && '}' !in word
    ensures DirectiveOk(Listen([Arg(" ", word)], "")) && DirectiveOk(ServerName([Arg(" ", word)], ""))
  {
    hide Balanced, NoDip;
    var args := [Arg(" ", word)];
    assert args[1..] == [] && args[0].word == word;
    assert ArgsText(args) == " " + word + "";
    NoBraces(ListenText(args, ""));
    NoBraces(ServerNameText(args, ""));
  }

  lemma WitnessOk()
    ensures DirectiveOk(TLS) && IsTls(TLS) && DirectiveOk(NAMED) && Named(NAMED, "a.b")
  {
    hide DirectiveOk;
    assert !IsSpace('4') && !IsSpace('3') && !IsSpace('a') && !IsSpace('.') && !IsSpace('b');
    OneArgOk("443");
    OneArgOk("a.b");
    assert Contains(TLS.args[0].word, "443");
    assert NAMED.args[0].word == "a.b";
  }

  lemma WitnessValid(isIP: string -> bool)
    requires !isIP("a.b")
    ensures IsValidSSLDomain("a.b", isIP)
  {
    ContainsChar("a.b", '.');
    assert "a.b"[0] != "*."[0] && "a.b"[1] == '.' && |"a.b"| == 3;
  }

  /** server { listen 443; server_name a.b; } on one line: a.b is served with TLS, and never found. */
  lemma DomainMissed(isIP: string -> bool)
    requires !isIP("a.b")
    ensures var items := OneLine(" ", [Stmt(" ", TLS), Stmt(" ", NAMED)], " ", "", End);
            Tidy(items) && ServesUnread(items, "a.b") && IsValidSSLDomain("a.b", isIP) &&
            "a.b" !in Found(Render(items), isIP)
  {
    hide DirectiveOk, IsTls, Named, Found, Render, IsValidSSLDomain;
    var stmts := [Stmt(" ", TLS), Stmt(" ", NAMED)];
    var items := OneLine(" ", stmts, " ", "", End);
    WitnessOk();
    WitnessValid(isIP);
    assert stmts[0].body == TLS && stmts[1].body == NAMED;
    FoundExactly(items, isIP, "a.b");
  }

  /** The word server, and on the next lines { listen 443; server_name a.b; }: a.b is never found either. */
  lemma SplitServerMissed(isIP: string -> bool)
    requires !isIP("a.b")
    ensures var items := SplitServer("", "", Line(TLS, "", Line(NAMED, "", End)), "", End);
            Tidy(items) && ServesUnread(items, "a.b") && IsValidSSLDomain("a.b", isIP) &&
            "a.b" !in Found(Render(items), isIP)
  {
    hide DirectiveOk, IsTls, Named, Found, Render, IsValidSSLDomain, HeaderOk;
    var items := SplitServer("", "", Line(TLS, "", Line(NAMED, "", End)), "", End);
    WitnessOk();
    WitnessValid(isIP);
    BraceOk();
    FoundExactly(items, isIP, "a.b");
  }

  lemma BraceOk()
    ensures HeaderOk("{", "")
  {
    assert "{" + "" == "{" && "{"[1..] == "";
    assert NoDip("{") by {
      assert "{"[..0] == "" && "{"[..1] == "{";
    }
  }

  /** A valid name is one with a dot that is no address and does not start with a wildcard: the placeholders have no
      dot. */
  lemma ValidExactly(name: string, isIP: string -> bool)
    ensures IsValidSSLDomain(name, isIP) <==>
            '.' in name && !isIP(name) && !(2 <= |name| && name[0] == '*' && name[1] == '.')
  {
    ContainsChar(name, '.');
    assert '.' !in "_" && '.' !in "localhost";
    assert HasPrefix(name, "*.") <==> 2 <= |name| && name[0] == '*' && name[1] == '.';
  }
}
