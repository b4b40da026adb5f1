/** Cutting a byte stream into lines, as the tail loop and the start-up scan do. */
module Lines {
  import opened Sequences

  newtype Byte = x: int | 0 <= x < 256

  type Bytes = seq<Byte>

  const NEWLINE: Byte := 10
  const SCAN_TAIL_BYTES: nat := 65536

  /** The lines that a newline ends. */
  function Complete(s: Bytes): seq<Bytes> {
    if s == [] then []
    else
      var n := |s| - 1;
      if s[n] == NEWLINE then Complete(s[..n]) + [Rest(s[..n])] else Complete(s[..n])
  }

  /** The text after the last newline. */
  function Rest(s: Bytes): Bytes {
    if s == [] then []
    else
      var n := |s| - 1;
      if s[n] == NEWLINE then [] else Rest(s[..n]) + [s[n]]
  }

  /** strings.Split at newlines: always at least one piece. */
  function Split(s: Bytes): (r: seq<Bytes>)
    ensures r != []
  {
    Complete(s) + [Rest(s)]
  }

  function Join(pieces: seq<Bytes>): Bytes
    requires pieces != []
  {
    var n := |pieces| - 1;
    if n == 0 then pieces[0] else Join(pieces[..n]) + [NEWLINE] + pieces[n]
  }

  lemma {:induction false} RestIsLine(s: Bytes)
    ensures NEWLINE !in Rest(s)
    ensures forall i :: 0 <= i < |Complete(s)| ==> NEWLINE !in Complete(s)[i]
  {
    if s != [] {
      RestIsLine(s[..|s| - 1]);
    }
  }

  /** The pieces of a split hold no newline and join to the original text. */
  lemma {:induction false} SplitJoins(s: Bytes)
    ensures Join(Split(s)) == s
    ensures forall i :: 0 <= i < |Split(s)| ==> NEWLINE !in Split(s)[i]
  {
    RestIsLine(s);
    if s != [] {
      var n := |s| - 1;
      var c, r := Complete(s[..n]), Rest(s[..n]);
      SplitJoins(s[..n]);
      assert s == s[..n] + [s[n]];
      if s[n] == NEWLINE {
        Snoc(c + [r], []);
        assert Join(Split(s)) == Join(c + [r]) + [NEWLINE] + [];
      } else {
        Snoc(c, r);
        Snoc(c, r + [s[n]]);
        if c != [] {
          assert Join(Split(s)) == Join(c) + [NEWLINE] + (r + [s[n]]);
          assert Join(c + [r]) == Join(c) + [NEWLINE] + r;
        }
      }
    }
  }

  lemma {:induction false} LineIsRest(s: Bytes)
    requires NEWLINE !in s
    ensures Complete(s) == [] && Rest(s) == s
  {
    if s != [] {
      var n := |s| - 1;
      assert s[n] in s && forall b :: b in s[..n] ==> b in s;
      LineIsRest(s[..n]);
      assert s == s[..n] + [s[n]];
    }
  }

  lemma OneMore(s: Bytes, x: Byte)
    ensures Complete(s + [x]) == if x == NEWLINE then Complete(s) + [Rest(s)] else Complete(s)
    ensures Rest(s + [x]) == if x == NEWLINE then [] else Rest(s) + [x]
  {
    Snoc(s, x);
  }

  /** Reading on from what was left over sees the same lines as reading everything at once. */
  lemma {:induction false} ReadOn(a: Bytes, b: Bytes)
    ensures Complete(a + b) == Complete(a) + Complete(Rest(a) + b)
    ensures Rest(a + b) == Rest(Rest(a) + b)
  {
    hide Complete, Rest;
    if b == [] {
      RestIsLine(a);
      LineIsRest(Rest(a));
      assert a + b == a && Rest(a) + b == Rest(a);
      assert Complete(a) + [] == Complete(a);
    } else {
      var c, x := b[..|b| - 1], b[|b| - 1];
      ReadOn(a, c);
      assert b == c + [x];
      Regroup(a, c, x);
      Regroup(Rest(a), c, x);
      OneMore(a + c, x);
      OneMore(Rest(a) + c, x);
      if x == NEWLINE {
        Regroup(Complete(a), Complete(Rest(a) + c), Rest(Rest(a) + c));
      }
    }
  }

  // ---- the tail loop ----

  /** What the loop hands to the matcher: the trimmed lines that are not empty. */
  function Clean(trim: Bytes -> Bytes, lines: seq<Bytes>): seq<Bytes> {
    if lines == [] then []
    else
      var rest, t := Clean(trim, lines[..|lines| - 1]), trim(lines[|lines| - 1]);
      if t != [] then rest + [t] else rest
  }

  function Flat(chunks: seq<Bytes>): Bytes {
    if chunks == [] then [] else Flat(chunks[..|chunks| - 1]) + chunks[|chunks| - 1]
  }

  /** The whole stream is the chunks one after the other. */
  lemma {:induction false} FlatIs(chunks: seq<Bytes>, i: nat)
    requires i < |chunks|
    ensures Flat(chunks) == Flat(chunks[..i]) + chunks[i] + Flat(chunks[i + 1..])
    ensures Flat([]) == []
    decreases |chunks|
  {
    var n := |chunks| - 1;
    if i < n {
      FlatIs(chunks[..n], i);
      assert chunks[..n][..i] == chunks[..i] && chunks[..n][i + 1..] == chunks[i + 1..][..n - i - 1];
      Associate(Flat(chunks[..i]) + chunks[i], Flat(chunks[..n][i + 1..]), chunks[n]);
    } else {
      assert Flat(chunks[..i]) + chunks[i] + [] == Flat(chunks[..i]) + chunks[i];
    }
  }

  /** The delivered lines are the trimmed lines at the indices idx, in order, and those are exactly the lines that
      are not empty once trimmed. */
  predicate DeliveredAt(trim: Bytes -> Bytes, lines: seq<Bytes>, delivered: seq<Bytes>, idx: seq<nat>) {
    && Ascends(idx, |lines|) && |delivered| == |idx|
    && (forall k :: 0 <= k < |lines| ==> (k in idx <==> trim(lines[k]) != []))
    && (forall i :: 0 <= i < |idx| ==> delivered[i] == trim(lines[idx[i]]))
  }

  lemma CleanSnoc(trim: Bytes -> Bytes, lines: seq<Bytes>, x: Bytes)
    ensures Clean(trim, lines + [x]) == if trim(x) != [] then Clean(trim, lines) + [trim(x)] else Clean(trim, lines)
  {
    Snoc(lines, x);
  }

  lemma CleanOne(trim: Bytes -> Bytes, lines: seq<Bytes>, i: nat)
    requires i < |lines|
    ensures Clean(trim, lines[..i + 1]) ==
              if trim(lines[i]) != [] then Clean(trim, lines[..i]) + [trim(lines[i])] else Clean(trim, lines[..i])
  {
    TakeOne(lines, i);
  }

  lemma PickNext(trim: Bytes -> Bytes, lines: seq<Bytes>, x: Bytes, out: seq<Bytes>, idx: seq<nat>)
    requires DeliveredAt(trim, lines, out, idx)
    ensures trim(x) == [] ==> DeliveredAt(trim, lines + [x], out, idx)
    ensures trim(x) != [] ==> DeliveredAt(trim, lines + [x], out + [trim(x)], idx + [|lines|])
  {
    AscendsSnoc(idx, |lines|);
  }

  lemma {:induction false} CleanAt(trim: Bytes -> Bytes, lines: seq<Bytes>) returns (idx: seq<nat>)
    ensures DeliveredAt(trim, lines, Clean(trim, lines), idx)
  {
    if lines == [] {
      idx := [];
    } else {
      hide DeliveredAt;
      var n := |lines| - 1;
      idx := CleanAt(trim, lines[..n]);
      assert lines == lines[..n] + [lines[n]];
      PickNext(trim, lines[..n], lines[n], Clean(trim, lines[..n]), idx);
      if trim(lines[n]) != [] {
        idx := idx + [n];
      }
    }
  }

  lemma {:induction false} CleanConcat(trim: Bytes -> Bytes, a: seq<Bytes>, b: seq<Bytes>)
    ensures Clean(trim, a + b) == Clean(trim, a) + Clean(trim, b)
  {
    hide Clean;
    if b == [] {
      CleanNone(trim);
      assert a + b == a;
    } else {
      var c, x := b[..|b| - 1], b[|b| - 1];
      CleanConcat(trim, a, c);
      assert b == c + [x];
      Regroup(a, c, x);
      CleanSnoc(trim, a + c, x);
      CleanSnoc(trim, c, x);
      Regroup(Clean(trim, a), Clean(trim, c), trim(x));
    }
  }

  lemma CleanNone(trim: Bytes -> Bytes)
    ensures Clean(trim, []) == []
  {
  }

  lemma RestEmpty(s: Bytes)
    ensures s == [] ==> Rest(s) == [] && Complete(s) == []
    ensures s != [] && s[|s| - 1] == NEWLINE ==> Rest(s) == []
  {
  }

  /** One read: joins it to the text left over, delivers the lines it completes, keeps the rest. */
  method Deliver(trim: Bytes -> Bytes, partial: Bytes, read: Bytes)
    returns (out: seq<Bytes>, left: Bytes, ghost idx: seq<nat>)
    requires trim([]) == []
    ensures DeliveredAt(trim, Complete(partial + read), out, idx)
    ensures out == Clean(trim, Complete(partial + read))
    ensures left == Rest(partial + read)
  {
    hide Clean, DeliveredAt, Complete, Rest;
    var chunk := partial + read;
    left := [];
    RestEmpty(chunk);
    var lines := Split(chunk);
    if chunk == [] || chunk[|chunk| - 1] != NEWLINE {
      left := lines[|lines| - 1];
      lines := lines[..|lines| - 1];
      assert lines == Complete(chunk);
    } else {
      CleanSnoc(trim, Complete(chunk), []);
    }
    out := [];
    CleanNone(trim);
    for i := 0 to |lines|
      invariant out == Clean(trim, lines[..i])
    {
      CleanOne(trim, lines, i);
      var line := trim(lines[i]);
      if line != [] {
        out := out + [line];
      }
    }
    assert lines[..|lines|] == lines;
    idx := CleanAt(trim, Complete(chunk));
  }

  /** However the stream is cut into chunks, the lines delivered are the complete lines of the whole
      stream, trimmed and without the empty ones, and what is left over is the text after the last
      newline. */
  method Tail(trim: Bytes -> Bytes, chunks: seq<Bytes>)
    returns (delivered: seq<Bytes>, partial: Bytes, ghost idx: seq<nat>)
    requires trim([]) == []
    ensures DeliveredAt(trim, Complete(Flat(chunks)), delivered, idx)
    ensures delivered == Clean(trim, Complete(Flat(chunks)))
    ensures partial == Rest(Flat(chunks))
  {
    delivered, partial := [], [];
    for i := 0 to |chunks|
      invariant delivered == Clean(trim, Complete(Flat(chunks[..i])))
      invariant partial == Rest(Flat(chunks[..i]))
    {
      ghost var before := Flat(chunks[..i]);
      assert chunks[..i + 1][..i] == chunks[..i];
      ReadOn(before, chunks[i]);
      if |chunks[i]| > 0 {
        var out, left, _ := Deliver(trim, partial, chunks[i]);
        CleanConcat(trim, Complete(before), Complete(partial + chunks[i]));
        delivered, partial := delivered + out, left;
      } else {
        assert before + chunks[i] == before;
      }
    }
    assert chunks[..|chunks|] == chunks;
    idx := CleanAt(trim, Complete(Flat(chunks)));
  }

  // ---- the start-up scan ----

  /** Where the scan starts reading a file of n bytes. */
  function ReadFrom(n: nat): nat {
    if n > SCAN_TAIL_BYTES then n - SCAN_TAIL_BYTES else 0
  }

  /** The lines the scan looks at: those of the tail, without the one it landed in. */
  function ScanLines(content: Bytes): seq<Bytes> {
    var from := ReadFrom(|content|);
    var lines := Split(content[from..]);
    if from > 0 then lines[1..] else lines
  }

  /** A prefix without a newline only changes the first piece. */
  lemma {:induction false} PrefixChangesFirst(p: Bytes, s: Bytes) returns (x: Bytes, y: Bytes, t: seq<Bytes>)
    requires NEWLINE !in p
    ensures Split(p + s) == [x] + t && Split(s) == [y] + t
  {
    if s == [] {
      assert p + s == p;
      LineIsRest(p);
      x, y, t := p, [], [];
    } else {
      var n := |s| - 1;
      var b := s[n];
      x, y, t := PrefixChangesFirst(p, s[..n]);
      assert s == s[..n] + [b];
      Regroup(p, s[..n], b);
      x, y, t := PieceStep(p + s[..n], s[..n], b, x, y, t);
    }
  }

  lemma PieceStep(u: Bytes, v: Bytes, b: Byte, x: Bytes, y: Bytes, t: seq<Bytes>)
    returns (x': Bytes, y': Bytes, t': seq<Bytes>)
    requires Split(u) == [x] + t && Split(v) == [y] + t
    ensures Split(u + [b]) == [x'] + t' && Split(v + [b]) == [y'] + t'
  {
    SplitGrows(u, b);
    SplitGrows(v, b);
    GrowFirst(x, t, b);
    GrowFirst(y, t, b);
    if t != [] || b == NEWLINE {
      x', y', t' := x, y, Grow(t, b);
    } else {
      x', y', t' := x + [b], y + [b], [];
      assert [x'] + t' == [x'] && [y'] + t' == [y'];
    }
  }

  /** One more byte starts a new piece or lengthens the last one. */
  function Grow(pieces: seq<Bytes>, b: Byte): seq<Bytes> {
    var n := |pieces| - 1;
    if b == NEWLINE then pieces + [[]] else if pieces == [] then [] else pieces[..n] + [pieces[n] + [b]]
  }

  lemma SplitGrows(s: Bytes, b: Byte)
    ensures Split(s + [b]) == Grow(Split(s), b)
  {
    Snoc(s, b);
    Snoc(Complete(s), Rest(s));
  }

  lemma GrowFirst(x: Bytes, t: seq<Bytes>, b: Byte)
    ensures Grow([x] + t, b) == if t != [] || b == NEWLINE then [x] + Grow(t, b) else [x + [b]]
  {
    if t != [] && b != NEWLINE {
      assert ([x] + t)[..|t|] == [x] + t[..|t| - 1];
    }
  }

  /** The scanned lines are a suffix of the lines of the whole file: all of them, or those after the
      line holding the byte before the starting point. */
  lemma ScanSeesSuffix(content: Bytes)
    ensures var from := if |content| <= 65_536 then 0 else |content| - 65_536;
            var k := if from == 0 then 0 else |Split(content[..from])|;
            k <= |Split(content)| && ScanLines(content) == Split(content)[k..]
  {
    var from := ReadFrom(|content|);
    var a, b := content[..from], content[from..];
    if from == 0 {
      assert content[0..] == content;
    } else {
      assert content == a + b;
      ReadOn(a, b);
      RestIsLine(a);
      var x, y, t := PrefixChangesFirst(Rest(a), b);
      DropFirst(Complete(a), x, t);
      assert Split(b)[1..] == t;
      assert Split(content) == Complete(a) + Split(Rest(a) + b);
    }
  }
}
