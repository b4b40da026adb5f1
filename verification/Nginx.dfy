/** The scanner for the domains that nginx serves over TLS. */
module Nginx {
  import opened Checks
  import opened Text

  datatype ServerBlock = ServerBlock(hasSSL: bool, serverNames: seq<string>)

  /** The scanner's variables between two lines. */
  datatype ScanState = ScanState(blocks: seq<ServerBlock>, current: Option<ServerBlock>, depth: int,
                                 blockStartDepth: int)

  const START: ScanState := ScanState([], None, 0, -1)

  predicate IsComment(line: string) {
    line == "" || HasPrefix(line, "#")
  }

  predicate StartsServer(line: string) {
    HasPrefix(line, "server") && Contains(line, "{") && !HasPrefix(line, "server_name")
  }

  predicate IsSslListen(line: string) {
    HasPrefix(line, "listen") &&
    var rest := TrimRight(line[6..], ';');
    Contains(rest, "443") || Contains(rest, "ssl")
  }

  /** What a line inside a server block adds to it. */
  function Read(b: ServerBlock, line: string): ServerBlock {
    var hasSSL := b.hasSSL || IsSslListen(line);
    if HasPrefix(line, "server_name")
    then ServerBlock(hasSSL, b.serverNames + Fields(TrimRight(line[11..], ';')))
    else ServerBlock(hasSSL, b.serverNames)
  }

  /** One trimmed line. */
  function Step(st: ScanState, line: string): ScanState {
    if IsComment(line) then st
    else
      var depth := st.depth + Count(line, '{') - Count(line, '}');
      var current := if StartsServer(line) then Some(ServerBlock(false, [])) else st.current;
      var start := if StartsServer(line) then st.depth else st.blockStartDepth;
      match current
      case None => ScanState(st.blocks, None, depth, start)
      case Some(b) =>
        if depth <= start
        then ScanState(st.blocks + [Read(b, line)], None, depth, -1)
        else ScanState(st.blocks, Some(Read(b, line)), depth, start)
  }

  function Scan(st: ScanState, lines: seq<string>): ScanState {
    if lines == [] then st else Step(Scan(st, lines[..|lines| - 1]), lines[|lines| - 1])
  }

  function Trimmed(lines: seq<string>): seq<string> {
    if lines == [] then [] else Trimmed(lines[..|lines| - 1]) + [TrimSpace(lines[|lines| - 1])]
  }

  // ---- collecting the domains ----

  /** A domain worth checking; isIP says which names are IP addresses. */
  predicate IsValidSSLDomain(name: string, isIP: string -> bool) {
    && name != "" && name != "_" && name != "localhost"
    && !HasPrefix(name, "*.")
    && !isIP(name)
    && Contains(name, ".")
  }

  function ValidNames(names: seq<string>, isIP: string -> bool): seq<string> {
    if names == [] then []
    else
      var n := |names| - 1;
      var name := TrimSpace(names[n]);
      if IsValidSSLDomain(name, isIP) then ValidNames(names[..n], isIP) + [name] else ValidNames(names[..n], isIP)
  }

  /** The names of the blocks that listen with TLS. */
  function SslNames(blocks: seq<ServerBlock>): seq<string> {
    if blocks == [] then []
    else
      var n := |blocks| - 1;
      if blocks[n].hasSSL then SslNames(blocks[..n]) + blocks[n].serverNames else SslNames(blocks[..n])
  }

  /** The first occurrences. */
  function Unique(names: seq<string>): (r: seq<string>) {
    if names == [] then []
    else
      var n := |names| - 1;
      if names[n] in names[..n] then Unique(names[..n]) else Unique(names[..n]) + [names[n]]
  }

  /** Where x first occurs. */
  function FirstIndex(names: seq<string>, x: string): (k: nat)
    requires x in names
    ensures k < |names| && names[k] == x
    ensures forall j :: 0 <= j < k ==> names[j] != x
  {
    if names[0] == x then 0 else 1 + FirstIndex(names[1..], x)
  }

  function Domains(blocks: seq<ServerBlock>, isIP: string -> bool): seq<string> {
    Unique(ValidNames(SslNames(blocks), isIP))
  }

  /** Unique keeps exactly the names that occur. */
  lemma {:induction false} UniqueMembers(names: seq<string>, x: string)
    ensures x in Unique(names) <==> x in names
  {
    if names != [] {
      var n := |names| - 1;
      UniqueMembers(names[..n], x);
      assert names == names[..n] + [names[n]];
    }
  }

  /** Each name is kept once, and names are kept in the order in which they first occur. */
  lemma {:induction false} UniqueOrder(names: seq<string>, i: nat, j: nat)
    requires i < j < |Unique(names)|
    ensures Unique(names)[i] in names && Unique(names)[j] in names
    ensures FirstIndex(names, Unique(names)[i]) < FirstIndex(names, Unique(names)[j])
    decreases |names|
  {
    var n := |names| - 1;
    var before := Unique(names[..n]);
    var x, y := Unique(names)[i], Unique(names)[j];
    UniqueMembers(names, x);
    UniqueMembers(names, y);
    assert x == before[i];
    UniqueMembers(names[..n], x);
    FirstIndexOfPrefix(names, n, x);
    if j < |before| {
      UniqueOrder(names[..n], i, j);
      FirstIndexOfPrefix(names, n, y);
    }
  }

  lemma FirstIndexOfPrefix(names: seq<string>, n: nat, x: string)
    requires n <= |names| && x in names[..n]
    ensures x in names && FirstIndex(names, x) == FirstIndex(names[..n], x)
  {
    var k := FirstIndex(names[..n], x);
    assert names[k] == x;
  }

  method CollectSSLDomains(blocks: seq<ServerBlock>, isIP: string -> bool) returns (domains: seq<string>)
    ensures domains == Domains(blocks, isIP)
  {
    domains := [];
    var seen := {};
    for i := 0 to |blocks|
      invariant Collected(SslNames(blocks[..i]), isIP, seen, domains)
    {
      assert blocks[..i + 1][..i] == blocks[..i];
      if !blocks[i].hasSSL {
        continue;
      }
      seen, domains := CollectNames(blocks[i].serverNames, isIP, seen, domains, SslNames(blocks[..i]));
    }
    assert blocks[..|blocks|] == blocks;
  }

  /** The domains and the set of them, after so many names. */
  ghost predicate Collected(names: seq<string>, isIP: string -> bool, seen: set<string>, domains: seq<string>) {
    domains == Unique(ValidNames(names, isIP)) && forall x :: x in seen <==> x in ValidNames(names, isIP)
  }

  /** Adds the names of one block. */
  method CollectNames(serverNames: seq<string>, isIP: string -> bool, seen: set<string>, domains: seq<string>,
                      ghost names: seq<string>)
    returns (seen': set<string>, domains': seq<string>)
    requires Collected(names, isIP, seen, domains)
    ensures Collected(names + serverNames, isIP, seen', domains')
  {
    seen', domains' := seen, domains;
    assert names + serverNames[..0] == names;
    for j := 0 to |serverNames|
      invariant Collected(names + serverNames[..j], isIP, seen', domains')
    {
      var name := TrimSpace(serverNames[j]);
      assert names + serverNames[..j + 1] == names + serverNames[..j] + [serverNames[j]];
      CollectOne(names + serverNames[..j], serverNames[j], isIP, seen', domains');
      if !IsValidSSLDomain(name, isIP) {
        continue;
      }
      if name !in seen' {
        seen' := seen' + {name};
        domains' := domains' + [name];
      }
    }
    assert serverNames[..|serverNames|] == serverNames;
  }

  lemma CollectOne(names: seq<string>, x: string, isIP: string -> bool, seen: set<string>, domains: seq<string>)
    requires Collected(names, isIP, seen, domains)
    ensures var name := TrimSpace(x);
            if !IsValidSSLDomain(name, isIP) || name in seen then Collected(names + [x], isIP, seen, domains)
            else Collected(names + [x], isIP, seen + {name}, domains + [name])
  {
    ValidSnoc(names, x, isIP);
    UniqueSnoc(ValidNames(names, isIP), TrimSpace(x));
  }

  lemma ValidSnoc(names: seq<string>, x: string, isIP: string -> bool)
    ensures var name := TrimSpace(x);
            ValidNames(names + [x], isIP) ==
              if IsValidSSLDomain(name, isIP) then ValidNames(names, isIP) + [name] else ValidNames(names, isIP)
  {
    assert (names + [x])[..|names|] == names;
  }

  lemma UniqueSnoc(names: seq<string>, x: string)
    ensures Unique(names + [x]) == if x in names then Unique(names) else Unique(names) + [x]
  {
    assert (names + [x])[..|names|] == names;
  }

  // ---- the scanner ----

  /** The listen and server_name directives of a server block. */
  method ReadDirective(b: ServerBlock, line: string) returns (r: ServerBlock)
    ensures r == Read(b, line)
  {
    r := b;
    if HasPrefix(line, "listen") {
      var rest := TrimRight(line[6..], ';');
      if Contains(rest, "443") || Contains(rest, "ssl") {
        r := r.(hasSSL := true);
      }
    }
    if HasPrefix(line, "server_name") {
      var rest := TrimRight(line[11..], ';');
      r := r.(serverNames := r.serverNames + Fields(rest));
    }
  }

  method ParseNginxDomains(lines: seq<string>, isIP: string -> bool) returns (domains: seq<string>)
    ensures domains == Domains(Scan(START, Trimmed(lines)).blocks, isIP)
  {
    var blocks: seq<ServerBlock> := [];
    var current: Option<ServerBlock> := None;
    var depth: int := 0;
    var blockStartDepth: int := -1;
    for i := 0 to |lines|
      invariant Scan(START, Trimmed(lines[..i])) == ScanState(blocks, current, depth, blockStartDepth)
    {
      var line := TrimSpace(lines[i]);
      ScanSnoc(lines, i);
      if IsComment(line) {
        continue;
      }
      var opens, closes := Count(line, '{'), Count(line, '}');
      if HasPrefix(line, "server") && Contains(line, "{") && !HasPrefix(line, "server_name") {
        current := Some(ServerBlock(false, []));
        blockStartDepth := depth;
      }
      depth := depth + opens - closes;
      if current.None? {
        continue;
      }
      var block := ReadDirective(current.value, line);
      current := Some(block);
      if depth <= blockStartDepth {
        blocks := blocks + [current.value];
        current := None;
        blockStartDepth := -1;
      }
    }
    assert lines[..|lines|] == lines;
    domains := CollectSSLDomains(blocks, isIP);
  }

  lemma ScanSnoc(lines: seq<string>, i: nat)
    requires i < |lines|
    ensures Scan(START, Trimmed(lines[..i + 1])) == Step(Scan(START, Trimmed(lines[..i])), TrimSpace(lines[i]))
  {
    assert lines[..i + 1][..i] == lines[..i];
    var t, x := Trimmed(lines[..i]), TrimSpace(lines[i]);
    assert (t + [x])[..|t|] == t;
  }

  lemma {:induction false} ScanConcat(st: ScanState, a: seq<string>, b: seq<string>)
    ensures Scan(st, a + b) == Scan(Scan(st, a), b)
  {
    if b == [] {
      assert a + b == a;
    } else {
      var n := |b| - 1;
      ScanConcat(st, a, b[..n]);
      assert (a + b)[..|a + b| - 1] == a + b[..n];
    }
  }
}
