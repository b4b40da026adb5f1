/** What the nginx scanner finds in a well-formed configuration: a tree of nested blocks, printed one
    directive, block header or closing brace per line, with any indentation, any spacing of arguments and
    with trailing comments. Whole server blocks may also stand on one line. */
module NginxTree {
  import opened Checks
  import opened Text
  import opened Nginx

  /** An argument and the white space before it. */
  datatype Arg = Arg(gap: string, word: string)

  datatype Directive =
    | Listen(args: seq<Arg>, tail: string)
    | ServerName(args: seq<Arg>, tail: string)
    | Other(code: string)

  /** A directive of a one-line block and the white space before it. */
  datatype Stmt = Stmt(gap: string, body: Directive)

  /** The lines of a file or of a block; a note is what follows the code on its line. */
  datatype Items =
    | End
    | Comment(text: string, rest: Items)
    | Line(body: Directive, note: string, rest: Items)
    | Server(gap: string, note: string, children: Items, endNote: string, rest: Items)
    | OneLine(gap: string, stmts: seq<Stmt>, tail: string, note: string, rest: Items)
    | SplitServer(headNote: string, note: string, children: Items, endNote: string, rest: Items)
    | Block(code: string, note: string, children: Items, endNote: string, rest: Items)

  function ArgsText(args: seq<Arg>): string {
    if args == [] then "" else args[0].gap + args[0].word + ArgsText(args[1..])
  }

  function ListenText(args: seq<Arg>, tail: string): string {
    "listen" + (ArgsText(args) + tail) + ";"
  }

  function ServerNameText(args: seq<Arg>, tail: string): string {
    "server_name" + (ArgsText(args) + tail) + ";"
  }

  function TextOf(d: Directive): string {
    match d
    case Listen(args, tail) => ListenText(args, tail)
    case ServerName(args, tail) => ServerNameText(args, tail)
    case Other(code) => code
  }

  function StmtsText(stmts: seq<Stmt>): string {
    if stmts == [] then "" else stmts[0].gap + TextOf(stmts[0].body) + StmtsText(stmts[1..])
  }

  /** The header of a server block, with whatever follows its brace on the line. */
  function ServerText(gap: string, more: string): string {
    "server" + (gap + ("{" + more))
  }

  function OneLineText(gap: string, stmts: seq<Stmt>, tail: string, note: string): string {
    ServerText(gap, StmtsText(stmts) + tail + "}" + note)
  }

  /** The trimmed lines of the tree. */
  function Render(items: Items): seq<string> {
    match items
    case End => []
    case Comment(text, rest) => [text] + Render(rest)
    case Line(body, note, rest) => [TextOf(body) + note] + Render(rest)
    case Server(gap, note, children, endNote, rest) =>
      [ServerText(gap, note)] + (Render(children) + (["}" + endNote] + Render(rest)))
    case OneLine(gap, stmts, tail, note, rest) => [OneLineText(gap, stmts, tail, note)] + Render(rest)
    case SplitServer(headNote, note, children, endNote, rest) =>
      ["server" + headNote] + (["{" + note] + (Render(children) + (["}" + endNote] + Render(rest))))
    case Block(code, note, children, endNote, rest) =>
      [code + note] + (Render(children) + (["}" + endNote] + Render(rest)))
  }

  // ---- well-formed trees ----

  predicate Balanced(s: string) {
    Count(s, '{') == Count(s, '}')
  }

  predicate Opens(s: string) {
    Count(s, '{') == Count(s, '}') + 1
  }

  /** Nothing, or a comment. */
  predicate NoteOk(note: string) {
    var s := TrimLeft(note);
    s == "" || s[0] == '#'
  }

  /** What comes after a semicolon or a brace starts a listen or server_name directive. */
  predicate Resumes(s: string) {
    var r := TrimLeft(s);
    HasPrefix(r, "listen") || HasPrefix(r, "server_name")
  }

  /** A listen or server_name directive follows another directive on the line. */
  predicate Hides(code: string) {
    exists i :: 0 <= i < |code| && code[i] in {';', '{', '}'} && Resumes(code[i + 1..])
  }

  /** A server block may start after a semicolon or a brace. */
  predicate HidesServer(code: string) {
    exists i :: 0 <= i < |code| && code[i] in {';', '{', '}'} && HasPrefix(TrimLeft(code[i + 1..]), "server")
  }

  /** No brace closes a block that the code did not open. */
  predicate NoDip(code: string) {
    forall i :: 0 <= i <= |code| ==> Count(code[..i], '}') <= Count(code[..i], '{')
  }

  /** No comment starts inside the code. */
  predicate NoComment(code: string) {
    forall i :: 0 <= i < |code| && code[i] == '#' ==>
                  i > 0 && !IsSpace(code[i - 1]) && code[i - 1] !in {';', '{', '}'}
  }

  predicate EndsWith(s: string, c: char) {
    s != "" && s[|s| - 1] == c
  }

  predicate ArgOk(a: Arg) {
    a.gap != "" && Spaces(a.gap) && a.word != "" && NoSpace(a.word) && ';' !in a.word && a.word[0] != '#'
  }

  predicate ArgsOk(args: seq<Arg>) {
    forall i :: 0 <= i < |args| ==> ArgOk(args[i])
  }

  /** Code that is a complete statement and neither is nor hides a directive that the scanner reads; a longer
      name such as server_name_in_redirect is another directive. */
  predicate OtherOk(code: string) {
    && (EndsWith(code, ';') || EndsWith(code, '}')) && !Hides(code) && NoComment(code)
    && !IsComment(code) && !IsSpace(code[0]) && !HasPrefix(code, "listen") && !StartsServer(code)
    && (HasPrefix(code, "server_name") ==> |code| > 11 && !IsSpace(code[11]) && code[11] != ';')
  }

  predicate DirectiveOk(d: Directive) {
    Balanced(TextOf(d)) && NoDip(TextOf(d)) &&
    match d
    case Listen(args, tail) => ArgsOk(args) && Spaces(tail)
    case ServerName(args, tail) => ArgsOk(args) && Spaces(tail)
    case Other(code) => OtherOk(code)
  }

  /** The comment names 443 or ssl. */
  predicate NotesTls(note: string) {
    Contains(note, "443") || Contains(note, "ssl")
  }

  /** A directive alone on its line. The scanner takes comments for arguments, so server_name has none, and that
      of a listen does not make it TLS; and what it takes for a name in a longer directive has no dot. */
  predicate LineOk(d: Directive, note: string) {
    var line := TextOf(d) + note;
    && DirectiveOk(d) && Balanced(note)
    && match d
       case Other(code) =>
         NoteOk(note) && !IsComment(line) && !HasPrefix(line, "listen") && !StartsServer(line) &&
         (HasPrefix(line, "server_name") ==> '.' !in line)
       case Listen(args, _) => NoteOk(note) && (NotesTls(note) ==> SslArgs(args))
       case ServerName(_, _) => note == ""
  }

  predicate StmtsOk(stmts: seq<Stmt>) {
    forall i :: 0 <= i < |stmts| ==> Spaces(stmts[i].gap) && DirectiveOk(stmts[i].body)
  }

  /** The header of a block other than server, alone on its line. */
  predicate HeaderOk(code: string, note: string) {
    && EndsWith(code, '{') && !Hides(code) && !HidesServer(code) && NoDip(code) && NoComment(code)
    && Opens(code) && NoteOk(note) && Balanced(note)
    && !IsComment(code + note) && !HasPrefix(code + note, "listen") && !HasPrefix(code + note, "server")
  }

  /** A closing brace alone on its line. */
  predicate CloserOk(endNote: string) {
    NoteOk(endNote) && Balanced(endNote)
  }

  /** After the word server alone on its line, with the brace on the next one. */
  predicate HeadOk(headNote: string) {
    NoteOk(headNote) && '{' !in headNote && '}' !in headNote
  }

  predicate HasServer(items: Items) {
    match items
    case End => false
    case Comment(_, rest) => HasServer(rest)
    case Line(_, _, rest) => HasServer(rest)
    case Server(_, _, _, _, _) => true
    case OneLine(_, _, _, _, _) => true
    case SplitServer(_, _, _, _, _) => true
    case Block(_, _, children, _, rest) => HasServer(children) || HasServer(rest)
  }

  predicate NeatEnd(s: string) {
    s == "" || !IsSpace(s[|s| - 1])
  }

  /** Braces match line by line, each line holds one directive and neither starts nor ends with white space, and no
      server block holds another. */
  predicate Tidy(items: Items) {
    match items
    case End => true
    case Comment(text, rest) => IsComment(text) && NeatEnd(text) && Tidy(rest)
    case Line(body, note, rest) => LineOk(body, note) && NeatEnd(note) && Tidy(rest)
    case Server(gap, note, children, endNote, rest) =>
      && Spaces(gap) && NoteOk(note) && Balanced(note) && CloserOk(endNote) && NeatEnd(note) && NeatEnd(endNote)
      && !HasServer(children) && Tidy(children) && Tidy(rest)
    case OneLine(gap, stmts, tail, note, rest) =>
      && Spaces(gap) && StmtsOk(stmts) && Spaces(tail) && NoteOk(note) && Balanced(note) && NeatEnd(note) && Tidy(rest)
    case SplitServer(headNote, note, children, endNote, rest) =>
      && HeadOk(headNote) && HeaderOk("{", note) && CloserOk(endNote)
      && NeatEnd(headNote) && NeatEnd(note) && NeatEnd(endNote)
      && !HasServer(children) && Tidy(children) && Tidy(rest)
    case Block(code, note, children, endNote, rest) =>
      && HeaderOk(code, note) && CloserOk(endNote) && !IsSpace(code[0]) && NeatEnd(note) && NeatEnd(endNote)
      && Tidy(children) && Tidy(rest)
  }

  // ---- what the tree says ----

  /** Some argument contains 443 or ssl. */
  predicate SslArgs(args: seq<Arg>) {
    Mentions(args, "443") || Mentions(args, "ssl")
  }

  function Words(args: seq<Arg>): seq<string> {
    if args == [] then [] else [args[0].word] + Words(args[1..])
  }

  predicate IsTls(d: Directive) {
    d.Listen? && SslArgs(d.args)
  }

  /** What the scanner takes for names in a line. */
  function NamesOf(d: Directive, note: string, strays: bool): seq<string> {
    match d
    case Listen(_, _) => []
    case ServerName(args, _) => Words(args)
    case Other(code) => if strays then Strays(code + note) else []
  }

  /** Some listen directive of a block, at any depth, mentions 443 or ssl. */
  predicate Ssl(items: Items) {
    match items
    case End => false
    case Comment(_, rest) => Ssl(rest)
    case Line(body, _, rest) => IsTls(body) || Ssl(rest)
    case Server(_, _, _, _, rest) => Ssl(rest)
    case OneLine(_, _, _, _, rest) => Ssl(rest)
    case SplitServer(_, _, _, _, rest) => Ssl(rest)
    case Block(_, _, children, _, rest) => Ssl(children) || Ssl(rest)
  }

  /** The arguments of the server_name directives of a block, at any depth; strays adds what the scanner takes
      for names in directives such as server_name_in_redirect. */
  function Names(items: Items, strays: bool): seq<string> {
    match items
    case End => []
    case Comment(_, rest) => Names(rest, strays)
    case Line(body, note, rest) => NamesOf(body, note, strays) + Names(rest, strays)
    case Server(_, _, _, _, rest) => Names(rest, strays)
    case OneLine(_, _, _, _, rest) => Names(rest, strays)
    case SplitServer(_, _, _, _, rest) => Names(rest, strays)
    case Block(_, _, children, _, rest) => Names(children, strays) + Names(rest, strays)
  }

  /** The server blocks in order, as the scanner reads them: it sees nothing inside a one-line block, and a block
      with its brace on the next line not at all. */
  function Servers(items: Items, strays: bool): seq<ServerBlock> {
    match items
    case End => []
    case Comment(_, rest) => Servers(rest, strays)
    case Line(_, _, rest) => Servers(rest, strays)
    case Server(_, _, children, _, rest) =>
      [ServerBlock(Ssl(children), Names(children, strays))] + Servers(rest, strays)
    case OneLine(_, _, _, _, rest) => [ServerBlock(false, [])] + Servers(rest, strays)
    case SplitServer(_, _, _, _, rest) => Servers(rest, strays)
    case Block(_, _, children, _, rest) => Servers(children, strays) + Servers(rest, strays)
  }

  // ---- single lines ----

  /** The first argument, and what follows it. */
  lemma FirstArg(args: seq<Arg>, tail: string)
    requires ArgsOk(args) && args != []
    ensures ArgsText(args) + tail == args[0].gap + (args[0].word + (ArgsText(args[1..]) + tail))
    ensures ArgsOk(args[1..]) && ArgOk(args[0])
  {
    hide ArgOk;
    ThreeAndOne(args[0].gap, args[0].word, ArgsText(args[1..]), tail);
  }

  lemma ThreeAndOne(a: string, b: string, c: string, d: string)
    ensures a + b + c + d == a + (b + (c + d))
  {
  }

  lemma WordEnd(a: Arg)
    requires ArgOk(a)
    ensures a.word[|a.word| - 1] != ';'
  {
    assert a.word[|a.word| - 1] in a.word;
  }

  lemma NoArgs(tail: string)
    ensures ArgsText([]) + tail == tail && tail + "" == tail
  {
  }

  lemma {:induction false} FieldsOfArgs(args: seq<Arg>, tail: string)
    requires ArgsOk(args) && Spaces(tail)
    ensures Fields(ArgsText(args) + tail) == Words(args)
  {
    hide ArgsOk, ArgsText, Fields, Spaces, NoSpace;
    if args == [] {
      NoArgs(tail);
      FieldsSkip(tail, "");
      NoFields();
    } else {
      var more := ArgsText(args[1..]) + tail;
      FirstArg(args, tail);
      FieldsOfArgs(args[1..], tail);
      StartsWithSpace(args[1..], tail);
      FieldsWord(args[0].word, more);
      FieldsSkip(args[0].gap, args[0].word + more);
    }
  }

  lemma NoFields()
    ensures Fields("") == []
  {
  }

  lemma StartsWithSpace(args: seq<Arg>, tail: string)
    requires ArgsOk(args) && Spaces(tail)
    ensures var s := ArgsText(args) + tail; s == "" || IsSpace(s[0])
  {
    hide IsSpace, ArgsText;
    if args == [] {
      NoArgs(tail);
    } else {
      FirstArg(args, tail);
      assert (ArgsText(args) + tail)[0] == args[0].gap[0];
    }
  }

  /** Some argument contains sub. */
  predicate Mentions(args: seq<Arg>, sub: string) {
    exists i :: 0 <= i < |args| && Contains(args[i].word, sub)
  }

  lemma MentionsFirst(args: seq<Arg>, sub: string)
    requires args != []
    ensures Mentions(args, sub) <==> Contains(args[0].word, sub) || Mentions(args[1..], sub)
  {
    hide Contains;
    if i :| 0 <= i < |args[1..]| && Contains(args[1..][i].word, sub) {
      assert args[1..][i] == args[i + 1];
    }
    if i :| 0 <= i < |args| && Contains(args[i].word, sub) && i > 0 {
      assert args[1..][i - 1] == args[i];
    }
  }

  lemma {:induction false} ContainsArgs(args: seq<Arg>, tail: string, sub: string)
    requires ArgsOk(args) && Spaces(tail) && sub != "" && NoSpace(sub)
    ensures Contains(ArgsText(args) + tail, sub) <==> Mentions(args, sub)
  {
    hide ArgsOk, ArgsText, Contains, Spaces, NoSpace;
    if args == [] {
      NoArgs(tail);
      ContainsSkip(tail, "", sub);
      NotInEmpty(sub);
    } else {
      hide Mentions;
      var more := ArgsText(args[1..]) + tail;
      FirstArg(args, tail);
      MentionsFirst(args, sub);
      ContainsArgs(args[1..], tail, sub);
      StartsWithSpace(args[1..], tail);
      ContainsWord(args[0].word, more, sub);
      ContainsSkip(args[0].gap, args[0].word + more, sub);
    }
  }

  lemma {:induction false} ArgsEnd(args: seq<Arg>, tail: string)
    requires ArgsOk(args) && Spaces(tail)
    ensures var s := ArgsText(args) + tail; s == "" || s[|s| - 1] != ';'
  {
    hide ArgsOk, ArgsText, IsSpace;
    if args == [] {
      NoArgs(tail);
      assert !IsSpace(';') by { NotSpace(); }
    } else {
      FirstArg(args, tail);
      WordEnd(args[0]);
      ArgsEnd(args[1..], tail);
    }
  }

  lemma NotSpace()
    ensures !IsSpace(';')
  {
  }

  lemma Literals()
    ensures NoSpace("443") && NoSpace("ssl")
  {
    assert !IsSpace('4') && !IsSpace('3') && !IsSpace('s') && !IsSpace('l');
  }

  /** A listen line is TLS for the scanner when an argument or the comment after it names 443 or ssl. */
  lemma ListenIsSsl(args: seq<Arg>, tail: string, note: string)
    requires ArgsOk(args) && Spaces(tail)
    ensures IsSslListen(ListenText(args, tail) + note) <==> SslArgs(args) || NotesTls(note)
  {
    hide Contains, Mentions, ArgsText, ArgsOk, Spaces, IsSpace, TrimRight;
    var line, body := ListenText(args, tail) + note, ArgsText(args) + tail;
    assert line[..6] == "listen" && line[6..] == body + ([';'] + note);
    Literals();
    ListenMentions(args, tail, note, "443");
    ListenMentions(args, tail, note, "ssl");
  }

  lemma ListenMentions(args: seq<Arg>, tail: string, note: string, sub: string)
    requires ArgsOk(args) && Spaces(tail) && sub != "" && NoSpace(sub) && ';' !in sub
    ensures Contains(TrimRight(ArgsText(args) + tail + ([';'] + note), ';'), sub) <==>
            Mentions(args, sub) || Contains(note, sub)
  {
    hide Contains, Mentions, ArgsText, ArgsOk, Spaces, NoSpace, TrimRight;
    var body := ArgsText(args) + tail;
    ContainsTrim(body + ([';'] + note), ';', sub);
    ContainsSplit(body, ';', note, sub);
    ContainsArgs(args, tail, sub);
  }

  lemma NamesAreWords(args: seq<Arg>, tail: string)
    requires ArgsOk(args) && Spaces(tail)
    ensures HasPrefix(ServerNameText(args, tail), "server_name")
    ensures Fields(TrimRight(ServerNameText(args, tail)[11..], ';')) == Words(args)
  {
    var line, body := ServerNameText(args, tail), ArgsText(args) + tail;
    assert line[..11] == "server_name" && line[11..] == body + ";";
    ArgsEnd(args, tail);
    TrimOnce(body, ';');
    FieldsOfArgs(args, tail);
  }

  // ---- braces ----

  /** How much deeper the scanner is after a text. */
  function Depth(s: string): int {
    Count(s, '{') - Count(s, '}')
  }

  lemma DepthConcat(a: string, b: string)
    ensures Depth(a + b) == Depth(a) + Depth(b)
  {
    CountConcat(a, b, '{');
    CountConcat(a, b, '}');
  }

  lemma DepthNone(s: string)
    requires '{' !in s && '}' !in s
    ensures Depth(s) == 0
  {
    CountPositive(s, '{');
    CountPositive(s, '}');
  }

  lemma DepthOfSpaces(s: string)
    requires Spaces(s)
    ensures Depth(s) == 0
  {
    assert !IsSpace('{') && !IsSpace('}');
    DepthNone(s);
  }

  lemma DepthOfServer(gap: string, more: string)
    requires Spaces(gap)
    ensures Depth(ServerText(gap, more)) == 1 + Depth(more)
  {
    DepthNone("server");
    DepthOfSpaces(gap);
    DepthConcat("server", gap + ("{" + more));
    DepthConcat(gap, "{" + more);
    DepthConcat("{", more);
    assert Depth("{") == 1;
  }

  lemma DepthOfCloser(endNote: string)
    ensures Depth("}" + endNote) == Depth(endNote) - 1
  {
    DepthConcat("}", endNote);
    assert Depth("}") == -1;
  }

  lemma {:induction false} DepthOfStmts(stmts: seq<Stmt>)
    requires StmtsOk(stmts)
    ensures Depth(StmtsText(stmts)) == 0
  {
    hide TextOf;
    if stmts != [] {
      DepthOfStmts(stmts[1..]);
      DepthOfSpaces(stmts[0].gap);
      assert DirectiveOk(stmts[0].body);
      DepthConcat(stmts[0].gap, TextOf(stmts[0].body));
      DepthConcat(stmts[0].gap + TextOf(stmts[0].body), StmtsText(stmts[1..]));
    }
  }

  lemma DepthOfOneLine(gap: string, stmts: seq<Stmt>, tail: string, note: string)
    requires Spaces(gap) && StmtsOk(stmts) && Spaces(tail) && Balanced(note)
    ensures Depth(OneLineText(gap, stmts, tail, note)) == 0
  {
    hide ServerText, StmtsText;
    var body := StmtsText(stmts);
    DepthOfServer(gap, body + tail + "}" + note);
    DepthOfStmts(stmts);
    DepthOfSpaces(tail);
    DepthConcat(body, tail);
    DepthConcat(body + tail, "}");
    DepthConcat(body + tail + "}", note);
    assert Depth("}") == -1;
  }

  // ---- the scanner line by line ----

  /** The state after a directive that adds a TLS listen or names to the current block, if there is one. */
  function Add(st: ScanState, ssl: bool, names: seq<string>): ScanState {
    match st.current
    case None => st
    case Some(b) => st.(current := Some(ServerBlock(b.hasSSL || ssl, b.serverNames + names)))
  }

  /** Between two lines of a block that is still open. */
  predicate Open(st: ScanState) {
    if st.current.None? then st.blockStartDepth == -1 else st.depth > st.blockStartDepth
  }

  lemma ScanCons(st: ScanState, line: string, lines: seq<string>)
    ensures Scan(st, [line] + lines) == Scan(Step(st, line), lines)
  {
    ScanConcat(st, [line], lines);
    assert [line][..0] == [];
  }

  lemma ScanComment(st: ScanState, text: string, lines: seq<string>)
    requires IsComment(text)
    ensures Scan(st, [text] + lines) == Scan(st, lines)
  {
    ScanCons(st, text, lines);
  }

  lemma ScanListen(st: ScanState, args: seq<Arg>, tail: string, note: string, lines: seq<string>)
    requires ArgsOk(args) && Spaces(tail) && Balanced(ListenText(args, tail) + note) && Open(st)
    ensures Scan(st, [ListenText(args, tail) + note] + lines) ==
              Scan(Add(st, SslArgs(args) || NotesTls(note), []), lines)
  {
    hide IsSslListen, ArgsText, SslArgs, NotesTls;
    var line := ListenText(args, tail) + note;
    ScanCons(st, line, lines);
    ListenIsSsl(args, tail, note);
    assert line[0] == 'l';
    if st.current.Some? {
      assert st.current.value.serverNames + [] == st.current.value.serverNames;
    }
  }

  lemma ScanServerName(st: ScanState, args: seq<Arg>, tail: string, lines: seq<string>)
    requires ArgsOk(args) && Spaces(tail) && Balanced(ServerNameText(args, tail)) && Open(st)
    ensures Scan(st, [ServerNameText(args, tail)] + lines) == Scan(Add(st, false, Words(args)), lines)
  {
    hide ArgsText, ArgsOk, Spaces;
    ScanCons(st, ServerNameText(args, tail), lines);
    NamesAreWords(args, tail);
    assert ServerNameText(args, tail)[0] == 's';
  }

  /** What the scanner takes for names in a directive it should skip. */
  function Strays(text: string): seq<string> {
    if HasPrefix(text, "server_name") then Fields(TrimRight(text[11..], ';')) else []
  }

  lemma ScanOther(st: ScanState, text: string, lines: seq<string>)
    requires !IsComment(text) && Balanced(text) && !HasPrefix(text, "listen") && !StartsServer(text) && Open(st)
    ensures Scan(st, [text] + lines) == Scan(Add(st, false, Strays(text)), lines)
  {
    ScanCons(st, text, lines);
    if st.current.Some? {
      assert st.current.value.serverNames + [] == st.current.value.serverNames;
    }
  }

  lemma ScanDirective(st: ScanState, d: Directive, note: string, lines: seq<string>)
    requires LineOk(d, note) && Open(st)
    ensures Scan(st, [TextOf(d) + note] + lines) == Scan(Add(st, IsTls(d), NamesOf(d, note, true)), lines)
  {
    hide StartsServer, OtherOk, NoDip, Strays, ListenText, ServerNameText, Words;
    match d
    case Listen(args, tail) =>
      DepthConcat(ListenText(args, tail), note);
      ScanListen(st, args, tail, note, lines);
    case ServerName(args, tail) =>
      assert TextOf(d) + note == ServerNameText(args, tail);
      ScanServerName(st, args, tail, lines);
    case Other(code) =>
      DepthConcat(code, note);
      ScanOther(st, code + note, lines);
  }

  lemma ScanBlock(st: ScanState, header: string, inner: seq<string>, closer: string, outer: seq<string>)
    ensures Scan(st, [header] + (inner + ([closer] + outer))) ==
              Scan(Step(Scan(Step(st, header), inner), closer), outer)
  {
    ScanCons(st, header, inner + ([closer] + outer));
    ScanConcat(Step(st, header), inner, [closer] + outer);
    ScanCons(Scan(Step(st, header), inner), closer, outer);
  }

  lemma CloserStep(st: ScanState, endNote: string)
    requires CloserOk(endNote)
    ensures Step(st, "}" + endNote) ==
              if st.current.Some? && st.depth - 1 <= st.blockStartDepth
              then ScanState(st.blocks + [st.current.value], None, st.depth - 1, -1)
              else st.(depth := st.depth - 1)
  {
    DepthOfCloser(endNote);
    assert ("}" + endNote)[0] == '}';
  }

  lemma PrefixOfName(s: string)
    requires !HasPrefix(s, "server")
    ensures !HasPrefix(s, "server_name")
  {
    assert "server_name"[..6] == "server";
    if |s| >= 11 {
      assert s[..6] == s[..11][..6];
    }
  }

  lemma HeaderStep(st: ScanState, code: string, note: string)
    requires HeaderOk(code, note) && Open(st)
    ensures Step(st, code + note) == st.(depth := st.depth + 1)
  {
    hide Hides, HidesServer, NoDip, NoComment, NoteOk;
    DepthConcat(code, note);
    PrefixOfName(code + note);
  }

  /** A block other than server only adds what is inside it. */
  lemma ScanPlainBlock(st: ScanState, after: ScanState, code: string, note: string, inner: seq<string>, endNote: string,
                       outer: seq<string>)
    requires HeaderOk(code, note) && CloserOk(endNote)
    requires Open(st) && Open(after) && st.current.Some? == after.current.Some?
    requires after.depth == st.depth && Scan(st.(depth := st.depth + 1), inner) == after.(depth := st.depth + 1)
    ensures Scan(st, [code + note] + (inner + (["}" + endNote] + outer))) == Scan(after, outer)
  {
    hide HeaderOk, CloserOk, Step;
    ScanBlock(st, code + note, inner, "}" + endNote, outer);
    HeaderStep(st, code, note);
    CloserStep(after.(depth := st.depth + 1), endNote);
  }

  lemma ServerHeader(gap: string, more: string)
    requires Spaces(gap)
    ensures StartsServer(ServerText(gap, more)) && !IsComment(ServerText(gap, more))
    ensures !HasPrefix(ServerText(gap, more), "listen")
  {
    var h := ServerText(gap, more);
    assert h[..6] == "server" && h[0] == 's';
    assert h[6] == if gap == "" then '{' else gap[0];
    assert !IsSpace('_') && "server_name"[6] == '_';
    assert h[6 + |gap|] == '{';
    ContainsChar(h, '{');
  }

  lemma ServerStep(st: ScanState, gap: string, more: string)
    requires Spaces(gap) && st.current.None?
    ensures var h := ServerText(gap, more); var b := ServerBlock(false, []);
            && (Depth(h) == 1 ==> Step(st, h) == ScanState(st.blocks, Some(b), st.depth + 1, st.depth))
            && (Depth(h) == 0 ==> Step(st, h) == ScanState(st.blocks + [b], None, st.depth, -1))
  {
    hide ServerText;
    ServerHeader(gap, more);
  }

  /** A server block is read from an empty start and added when it closes. */
  lemma ScanServer(st: ScanState, b: ServerBlock, gap: string, note: string, inner: seq<string>, endNote: string,
                   outer: seq<string>)
    requires Spaces(gap) && Balanced(note) && CloserOk(endNote) && st.current.None? && Open(st)
    requires Scan(ScanState(st.blocks, Some(ServerBlock(false, [])), st.depth + 1, st.depth), inner) ==
               ScanState(st.blocks, Some(b), st.depth + 1, st.depth)
    ensures Scan(st, [ServerText(gap, note)] + (inner + (["}" + endNote] + outer))) ==
              Scan(st.(blocks := st.blocks + [b]), outer)
  {
    hide ServerText, Opens, CloserOk, Step;
    DepthOfServer(gap, note);
    ScanBlock(st, ServerText(gap, note), inner, "}" + endNote, outer);
    ServerStep(st, gap, note);
    CloserStep(ScanState(st.blocks, Some(b), st.depth + 1, st.depth), endNote);
  }

  /** A server block on one line is added without listen and names. */
  lemma ScanOneLine(st: ScanState, gap: string, more: string, outer: seq<string>)
    requires Spaces(gap) && Depth(ServerText(gap, more)) == 0 && st.current.None? && Open(st)
    ensures Scan(st, [ServerText(gap, more)] + outer) ==
              Scan(st.(blocks := st.blocks + [ServerBlock(false, [])]), outer)
  {
    hide ServerText, Step;
    ScanCons(st, ServerText(gap, more), outer);
    ServerStep(st, gap, more);
  }

  /** The word server without a brace starts nothing. */
  lemma ScanHead(st: ScanState, headNote: string, lines: seq<string>)
    requires HeadOk(headNote) && st.current.None? && Open(st)
    ensures Scan(st, ["server" + headNote] + lines) == Scan(st, lines)
  {
    hide NoteOk;
    var line := "server" + headNote;
    ScanCons(st, line, lines);
    assert line[0] == 's';
    DepthConcat("server", headNote);
    DepthNone("server");
    DepthNone(headNote);
    ContainsChar(line, '{');
  }

  // ---- whole trees ----

  lemma AddTwice(st: ScanState, ssl: bool, names: seq<string>, ssl': bool, names': seq<string>)
    ensures Add(Add(st, ssl, names), ssl', names') == Add(st, ssl || ssl', names + names')
  {
    if st.current.Some? {
      assert st.current.value.serverNames + names + names' == st.current.value.serverNames + (names + names');
    }
  }

  lemma AddNothing(st: ScanState)
    ensures Add(st, false, []) == st
  {
    if st.current.Some? {
      assert st.current.value.serverNames + [] == st.current.value.serverNames;
    }
  }

  lemma AddKeepsOpen(st: ScanState, ssl: bool, names: seq<string>)
    requires Open(st)
    ensures Open(Add(st, ssl, names)) && Add(st, ssl, names).current.Some? == st.current.Some?
    ensures Add(st, ssl, names).depth == st.depth
    ensures Add(st.(depth := st.depth + 1), ssl, names) == Add(st, ssl, names).(depth := st.depth + 1)
    ensures st.current.None? ==> Add(st, ssl, names) == st
  {
  }

  /** Where no server block starts, items at any depth only add to the current block. */
  lemma {:induction false} Inside(items: Items, st: ScanState)
    requires Tidy(items) && !HasServer(items) && Open(st)
    ensures Scan(st, Render(items)) == Add(st, Ssl(items), Names(items, true))
  {
    hide Add, LineOk, HeaderOk, CloserOk, TextOf, IsTls, NamesOf, IsComment, ServerText, OneLineText, StmtsOk, Step;
    match items
    case End =>
      AddNothing(st);
    case Comment(text, rest) =>
      ScanComment(st, text, Render(rest));
      Inside(rest, st);
    case Line(body, note, rest) =>
      ScanDirective(st, body, note, Render(rest));
      AddKeepsOpen(st, IsTls(body), NamesOf(body, note, true));
      Inside(rest, Add(st, IsTls(body), NamesOf(body, note, true)));
      AddTwice(st, IsTls(body), NamesOf(body, note, true), Ssl(rest), Names(rest, true));
    case Block(code, note, children, endNote, rest) =>
      var after := Add(st, Ssl(children), Names(children, true));
      AddKeepsOpen(st, Ssl(children), Names(children, true));
      Inside(children, st.(depth := st.depth + 1));
      ScanPlainBlock(st, after, code, note, Render(children), endNote, Render(rest));
      Inside(rest, after);
      AddTwice(st, Ssl(children), Names(children, true), Ssl(rest), Names(rest, true));
  }

  function WithBlocks(st: ScanState, blocks: seq<ServerBlock>): ScanState {
    st.(blocks := st.blocks + blocks)
  }

  lemma WithBlocksTwice(st: ScanState, bs: seq<ServerBlock>, cs: seq<ServerBlock>)
    ensures WithBlocks(WithBlocks(st, bs), cs) == WithBlocks(st, bs + cs)
  {
    assert st.blocks + bs + cs == st.blocks + (bs + cs);
  }

  /** Outside server blocks, items add exactly the server blocks among them. */
  lemma {:induction false} Outside(items: Items, st: ScanState)
    requires Tidy(items) && st.current.None? && Open(st)
    ensures Scan(st, Render(items)) == WithBlocks(st, Servers(items, true))
    decreases items, 1
  {
    hide Add, LineOk, HeaderOk, CloserOk, TextOf, IsTls, NamesOf, IsComment, ServerText, StmtsOk, Balanced, Depth, Step;
    match items
    case End =>
      assert st.blocks + [] == st.blocks;
    case Comment(text, rest) =>
      ScanComment(st, text, Render(rest));
      Outside(rest, st);
    case Line(body, note, rest) =>
      ScanDirective(st, body, note, Render(rest));
      AddKeepsOpen(st, IsTls(body), NamesOf(body, note, true));
      Outside(rest, st);
    case Server(gap, note, children, endNote, rest) =>
      OutsideServer(items, st);
    case OneLine(gap, stmts, tail, note, rest) =>
      var b := ServerBlock(false, []);
      DepthOfOneLine(gap, stmts, tail, note);
      ScanOneLine(st, gap, StmtsText(stmts) + tail + "}" + note, Render(rest));
      Outside(rest, WithBlocks(st, [b]));
      WithBlocksTwice(st, [b], Servers(rest, true));
    case SplitServer(_, _, _, _, _) =>
      OutsideSplit(items, st);
    case Block(code, note, children, endNote, rest) =>
      var after := WithBlocks(st, Servers(children, true));
      Outside(children, st.(depth := st.depth + 1));
      ScanPlainBlock(st, after, code, note, Render(children), endNote, Render(rest));
      Outside(rest, after);
      WithBlocksTwice(st, Servers(children, true), Servers(rest, true));
  }

  lemma {:induction false} OutsideServer(items: Items, st: ScanState)
    requires items.Server? && Tidy(items) && st.current.None? && Open(st)
    ensures Scan(st, Render(items)) == WithBlocks(st, Servers(items, true))
    decreases items, 0
  {
    hide LineOk, HeaderOk, CloserOk, IsComment, ServerText, StmtsOk, Balanced, Step;
    var children := items.children;
    var b := ServerBlock(Ssl(children), Names(children, true));
    Inside(children, ScanState(st.blocks, Some(ServerBlock(false, [])), st.depth + 1, st.depth));
    assert [] + Names(children, true) == Names(children, true);
    ScanServer(st, b, items.gap, items.note, Render(children), items.endNote, Render(items.rest));
    Outside(items.rest, WithBlocks(st, [b]));
    WithBlocksTwice(st, [b], Servers(items.rest, true));
  }

  lemma {:induction false} OutsideSplit(items: Items, st: ScanState)
    requires items.SplitServer? && Tidy(items) && st.current.None? && Open(st)
    ensures Scan(st, Render(items)) == WithBlocks(st, Servers(items, true))
    decreases items, 0
  {
    hide Add, LineOk, HeadOk, HeaderOk, CloserOk, IsComment, StmtsOk, Balanced, Step;
    var children, rest := items.children, items.rest;
    var block := ["{" + items.note] + (Render(children) + (["}" + items.endNote] + Render(rest)));
    ScanHead(st, items.headNote, block);
    Inside(children, st.(depth := st.depth + 1));
    AddKeepsOpen(st.(depth := st.depth + 1), Ssl(children), Names(children, true));
    ScanPlainBlock(st, st, "{", items.note, Render(children), items.endNote, Render(rest));
    Outside(rest, st);
  }
}
