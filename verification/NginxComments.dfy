/** What a comment on the line of a server_name directive does: the scanner reads it as part of the names. */
module NginxComments {
  import opened Checks
  import opened Text
  import opened Nginx
  import opened NginxTree
  import opened NginxDomains

  /** The names the scanner reads in a server_name line with a note after it. */
  function NamesRead(args: seq<Arg>, tail: string, note: string): seq<string> {
    Fields(TrimRight((ServerNameText(args, tail) + note)[11..], ';'))
  }

  predicate Somewhere(words: seq<string>, c: char) {
    exists i :: 0 <= i < |words| && c in words[i]
  }

  lemma SomewhereAfter(w: string, words: seq<string>, c: char)
    requires c in w || Somewhere(words, c)
    ensures Somewhere([w] + words, c)
  {
    if c in w {
      assert c in ([w] + words)[0];
    } else {
      var i :| 0 <= i < |words| && c in words[i];
      assert ([w] + words)[i + 1] == words[i];
    }
  }

  /** A character other than white space ends up in some word. */
  lemma {:induction false} FieldsKeep(s: string, c: char)
    requires !IsSpace(c) && c in s
    ensures Somewhere(Fields(s), c)
    decreases |s|
  {
    hide IsSpace, Somewhere, WordLength;
    if IsSpace(s[0]) {
      assert s == [s[0]] + s[1..];
      FieldsKeep(s[1..], c);
    } else {
      var k := 1 + WordLength(s[1..]);
      assert s == s[..k] + s[k..];
      if c !in s[..k] {
        FieldsKeep(s[k..], c);
      }
      SomewhereAfter(s[..k], Fields(s[k..]), c);
    }
  }

  /** What is not all c survives the trimming of c. */
  lemma {:induction false} TrimKeeps(a: string, b: string, c: char)
    requires b != "" && b[0] != c
    ensures a < TrimRight(a + b, c)
    decreases |b|
  {
    var s := a + b;
    if s[|s| - 1] == c {
      assert s[..|s| - 1] == a + b[..|b| - 1];
      TrimKeeps(a, b[..|b| - 1], c);
    }
  }

  lemma {:induction false} WordsPlain(args: seq<Arg>)
    requires ArgsOk(args)
    ensures !Somewhere(Words(args), ';')
  {
    if args != [] {
      WordsPlain(args[1..]);
      var w := Words(args);
      forall i | 0 <= i < |w|
        ensures ';' !in w[i]
      {
        if i > 0 {
          assert w[i] == Words(args[1..])[i - 1];
        }
      }
    }
  }

  lemma NoteStarts(note: string)
    requires NoteOk(note) && note != ""
    ensures note[0] != ';'
  {
    assert !IsSpace(';');
  }

  /** A server_name line is read as its arguments exactly when nothing follows its semicolon. */
  lemma NamesReadExactly(args: seq<Arg>, tail: string, note: string)
    requires ArgsOk(args) && Spaces(tail) && NoteOk(note)
    ensures NamesRead(args, tail, note) == Words(args) <==> note == ""
  {
    hide ArgsText, ArgsOk, Fields, TrimRight, NoteOk, Words, Spaces, IsSpace;
    var line := ServerNameText(args, tail);
    if note == "" {
      assert line + note == line;
      NamesAreWords(args, tail);
    } else {
      var body := ArgsText(args) + tail + ";";
      assert (line + note)[11..] == body + note;
      NoteStarts(note);
      TrimKeeps(body, note, ';');
      var s := TrimRight(body + note, ';');
      assert s[|body| - 1] == ';';
      NotSpace();
      FieldsKeep(s, ';');
      WordsPlain(args);
    }
  }

  // ---- a domain lost to a comment ----

  lemma ScanNoted(st: ScanState, args: seq<Arg>, tail: string, note: string, lines: seq<string>)
    requires Balanced(ServerNameText(args, tail) + note) && Open(st)
    ensures Scan(st, [ServerNameText(args, tail) + note] + lines) ==
              Scan(Add(st, false, NamesRead(args, tail, note)), lines)
  {
    hide ArgsText, Fields, TrimRight, Count;
    var line := ServerNameText(args, tail) + note;
    ScanCons(st, line, lines);
    assert line[0] == 's' && line[..11] == "server_name";
  }

  /** A server block over several lines with a TLS listen and a comment after its names. */
  function Commented(args: seq<Arg>, note: string): seq<string> {
    [ServerText(" ", ""), TextOf(TLS), ServerNameText(args, "") + note, "}"]
  }

  lemma Inner(names: string, st: ScanState)
    requires Open(st)
    ensures Scan(st, [TextOf(TLS), names]) == Scan(Add(st, true, []), [names])
  {
    hide Scan, IsTls, NamesOf, DirectiveOk;
    WitnessOk();
    ScanDirective(st, TLS, "", [names]);
    assert TextOf(TLS) + "" == TextOf(TLS) && [TextOf(TLS)] + [names] == [TextOf(TLS), names];
    NoNames();
  }

  lemma NoNames()
    ensures NamesOf(TLS, "", true) == []
  {
  }

  lemma ScanEnd(st: ScanState)
    ensures Scan(st, []) == st
  {
  }

  /** Such a block is found under the names read with the comment. */
  lemma FoundCommented(args: seq<Arg>, note: string, isIP: string -> bool)
    requires Balanced(ServerNameText(args, "") + note)
    ensures Found(Commented(args, note), isIP) == Unique(ValidNames(NamesRead(args, "", note), isIP))
  {
    hide ServerText, TextOf, ServerNameText, Balanced, NamesRead, Step, Scan, Unique, ValidNames, SslNames, Depth;
    var names, read := ServerNameText(args, "") + note, NamesRead(args, "", note);
    var b := ServerBlock(true, read);
    var inside := ScanState([], Some(ServerBlock(false, [])), 1, 0);
    var inner := [TextOf(TLS), names];
    var none: seq<string> := [];
    Inner(names, inside);
    assert Add(inside, true, none).current == Some(ServerBlock(true, none)) by {
      assert none + none == none;
    }
    ScanNoted(Add(inside, true, []), args, "", note, []);
    assert [names] + [] == [names] && [] + read == read;
    ScanEnd(Add(Add(inside, true, []), false, read));
    NothingBalanced();
    ScanServer(START, b, " ", "", inner, "", none);
    assert "}" + "" == "}";
    assert [ServerText(" ", "")] + (inner + (["}"] + none)) == Commented(args, note);
    assert START.blocks + [b] == [b];
    ScanEnd(START.(blocks := [b]));
    SslNamesOne(b);
  }

  lemma NothingBalanced()
    ensures Balanced("") && CloserOk("")
  {
  }

  const A_B: seq<Arg> := [Arg(" ", "a.b")]

  lemma ReadWithNote()
    ensures NamesRead(A_B, "", " # x") == ["a.b;", "#", "x"]
    ensures Balanced(ServerNameText(A_B, "") + " # x")
  {
    hide Fields, TrimRight, Balanced;
    var line := ServerNameText(A_B, "") + " # x";
    assert A_B[1..] == [];
    assert ArgsText([]) == "";
    assert ArgsText(A_B) == " a.b";
    assert line == "server_name a.b; # x";
    assert line[11..] == " a.b; # x";
    NoTrim(" a.b; # x");
    ThreeFields();
    NoBraces(line);
  }

  lemma NoTrim(s: string)
    requires s != "" && s[|s| - 1] != ';'
    ensures TrimRight(s, ';') == s
  {
  }

  lemma OneSpace()
    ensures IsSpace(' ')
  {
  }

  lemma ThreeFields()
    ensures Fields(" a.b; # x") == ["a.b;", "#", "x"]
  {
    hide Fields, IsSpace;
    NoSpaces();
    assert IsSpace(' ') by { OneSpace(); }
    FieldsSkip(" ", "a.b;" + " # x");
    FieldsWord("a.b;", " # x");
    FieldsSkip(" ", "#" + " x");
    FieldsWord("#", " x");
    FieldsSkip(" ", "x" + "");
    FieldsWord("x", "");
    NoFields();
    assert " a.b; # x" == " " + ("a.b;" + " # x");
    assert " # x" == " " + ("#" + " x");
    assert " x" == " " + ("x" + "");
  }

  /** With "server_name a.b; # x" in a TLS server block the scanner finds "a.b;" and not a.b. */
  lemma CommentLosesName(isIP: string -> bool)
    requires !isIP("a.b;")
    ensures Found(Commented(A_B, " # x"), isIP) == ["a.b;"]
  {
    hide Found, Commented, NamesRead, Balanced, TrimSpace, Contains, HasPrefix;
    ReadWithNote();
    FoundCommented(A_B, " # x", isIP);
    OneValid(isIP);
  }

  lemma NoSpaces()
    ensures NoSpace("a.b;") && NoSpace("#") && NoSpace("x")
  {
    assert !IsSpace('a') && !IsSpace('.') && !IsSpace('b') && !IsSpace(';') && !IsSpace('#') && !IsSpace('x');
  }

  lemma OneValid(isIP: string -> bool)
    requires !isIP("a.b;")
    ensures Unique(ValidNames(["a.b;", "#", "x"], isIP)) == ["a.b;"]
  {
    hide TrimSpace, Contains, IsSpace;
    var words := ["a.b;", "#", "x"];
    assert words[..2] == ["a.b;", "#"] && words[..2][..1] == ["a.b;"] && ["a.b;"][..0] == [];
    NoSpaces();
    TrimWord("a.b;");
    TrimWord("#");
    TrimWord("x");
    ContainsChar("#", '.');
    ContainsChar("x", '.');
    ContainsChar("a.b;", '.');
    assert "a.b;"[0] != '*' && "a.b;"[1] == '.';
    assert ValidNames(["a.b;"], isIP) == ["a.b;"];
    assert Unique([]) == [];
  }
}
