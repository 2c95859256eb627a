/**
 The calendar file of a booking: escaping a text (section 3.3.11 of RFC 5545), folding a line
 (section 3.1), and reading both back.
 */
module Calendar {
  import opened Prelude

  type byte = x: int | 0 <= x < 256

  // ---- UTF-8 ----

  function Utf8(c: char): (r: seq<byte>)
    ensures 1 <= |r| <= 4
  {
    var n := c as int;
    if n < 0x80 then [n]
    else if n < 0x800 then [0xC0 + n / 64, 0x80 + n % 64]
    else if n < 0x10000 then [0xE0 + n / 64 / 64, 0x80 + n / 64 % 64, 0x80 + n % 64]
    else [0xF0 + n / 64 / 64 / 64, 0x80 + n / 64 / 64 % 64, 0x80 + n / 64 % 64, 0x80 + n % 64]
  }

  /** Each character's own sequence, one after another. */
  function Each<T>(s: string, f: char -> seq<T>): seq<T> {
    if s == "" then [] else f(s[0]) + Each(s[1..], f)
  }

  lemma {:induction false} EachConcat<T>(s: string, t: string, f: char -> seq<T>)
    ensures Each(s + t, f) == Each(s, f) + Each(t, f)
  {
    if s == "" {
      assert s + t == t;
    } else {
      EachConcat(s[1..], t, f);
      assert (s + t)[1..] == s[1..] + t;
    }
  }

  lemma {:induction false} EachOne<T>(c: char, f: char -> seq<T>)
    ensures Each([c], f) == f(c)
  {
    assert [c][1..] == "";
    assert f(c) + [] == f(c);
  }

  function Octets(s: string): seq<byte> {
    Each(s, Utf8)
  }

  predicate Tail(b: byte) {
    0x80 <= b < 0xC0
  }

  /** The low bits of an octet. */
  function Low(b: byte, span: int): int
    requires span > 0
  {
    var v: int := b;
    v % span
  }

  /** The first character of some UTF-8 text and how many octets it takes: shortest forms only, no
   surrogates. */
  function FirstChar(b: seq<byte>): Option<(char, nat)>
    requires b != []
  {
    if b[0] < 0x80 then Some((b[0] as char, 1))
    else if 0xC0 <= b[0] < 0xE0 && |b| >= 2 && Tail(b[1]) then
      var n := Low(b[0], 32) * 64 + Low(b[1], 64);
      if 0x80 <= n then Some((n as char, 2)) else None
    else if 0xE0 <= b[0] < 0xF0 && |b| >= 3 && Tail(b[1]) && Tail(b[2]) then
      var n := Low(b[0], 16) * 4096 + Low(b[1], 64) * 64 + Low(b[2], 64);
      if 0x800 <= n && !(0xD800 <= n < 0xE000) then Some((n as char, 3)) else None
    else if 0xF0 <= b[0] < 0xF8 && |b| >= 4 && Tail(b[1]) && Tail(b[2]) && Tail(b[3]) then
      var n := Low(b[0], 8) * 262144 + Low(b[1], 64) * 4096 + Low(b[2], 64) * 64 + Low(b[3], 64);
      if 0x10000 <= n < 0x110000 then Some((n as char, 4)) else None
    else None
  }

  function Decoded(b: seq<byte>): Option<string> {
    if b == [] then Some("")
    else
      var first := FirstChar(b);
      if first.None? || first.value.1 == 0 || first.value.1 > |b| then None
      else
        var rest := Decoded(b[first.value.1..]);
        if rest.None? then None else Some([first.value.0] + rest.value)
  }

  lemma {:induction false} TwoOctets(n: int, b: seq<byte>)
    requires 0x80 <= n < 0x800 && |b| >= 2 && b[0] == 0xC0 + n / 64 && b[1] == 0x80 + n % 64
    ensures FirstChar(b) == Some((n as char, 2))
  {
    assert Low(b[0], 32) == n / 64 && Low(b[1], 64) == n % 64;
  }

  lemma {:induction false} ThreeOctets(n: int, q: int, p: int, b: seq<byte>)
    requires q == n / 64 && p == q / 64
    requires 0x800 <= n < 0x10000 && !(0xD800 <= n < 0xE000) && |b| >= 3
    requires b[0] == 0xE0 + p && b[1] == 0x80 + q % 64 && b[2] == 0x80 + n % 64
    ensures FirstChar(b) == Some((n as char, 3))
  {
    assert n == q * 64 + n % 64 && q == p * 64 + q % 64;
    assert Low(b[0], 16) == p && Low(b[1], 64) == q % 64 && Low(b[2], 64) == n % 64;
  }

  lemma {:induction false} FourOctets(n: int, q: int, p: int, o: int, b: seq<byte>)
    requires q == n / 64 && p == q / 64 && o == p / 64
    requires 0x10000 <= n < 0x110000 && |b| >= 4
    requires b[0] == 0xF0 + o && b[1] == 0x80 + p % 64 && b[2] == 0x80 + q % 64 && b[3] == 0x80 + n % 64
    ensures FirstChar(b) == Some((n as char, 4))
  {
    assert n == q * 64 + n % 64 && q == p * 64 + q % 64 && p == o * 64 + p % 64;
    assert Low(b[0], 8) == o && Low(b[1], 64) == p % 64 && Low(b[2], 64) == q % 64 && Low(b[3], 64) == n % 64;
  }

  lemma {:induction false} FirstCharReads(c: char, rest: seq<byte>)
    ensures FirstChar(Utf8(c) + rest) == Some((c, |Utf8(c)|))
  {
    var n := c as int;
    var b := Utf8(c) + rest;
    if n < 0x80 {
    } else if n < 0x800 {
      TwoOctets(n, b);
    } else if n < 0x10000 {
      ThreeOctets(n, n / 64, n / 64 / 64, b);
    } else {
      FourOctets(n, n / 64, n / 64 / 64, n / 64 / 64 / 64, b);
    }
  }

  lemma {:induction false} DecodedFirst(c: char, rest: seq<byte>)
    requires Decoded(rest).Some?
    ensures Decoded(Utf8(c) + rest) == Some([c] + Decoded(rest).value)
  {
    var b := Utf8(c) + rest;
    FirstCharReads(c, rest);
    assert b[|Utf8(c)|..] == rest;
  }

  lemma {:induction false} DecodedReads(s: string)
    ensures Decoded(Octets(s)) == Some(s)
  {
    if s != "" {
      DecodedReads(s[1..]);
      DecodedFirst(s[0], Octets(s[1..]));
      assert [s[0]] + s[1..] == s;
    }
  }

  // ---- Folding ----

  const LINE := 75

  predicate Plain(s: string) {
    forall i :: 0 <= i < |s| ==> s[i] != '\r' && s[i] != '\n'
  }

  function Concat(parts: seq<string>): string {
    if parts == [] then "" else parts[0] + Concat(parts[1..])
  }

  function Join(parts: seq<string>, separator: string): string
    requires parts != []
  {
    if |parts| == 1 then parts[0] else parts[0] + separator + Join(parts[1..], separator)
  }

  /** How many octets the `k`-th piece may have: a leading space takes one from each but the first. */
  function Room(k: nat): nat {
    if k == 0 then LINE else LINE - 1
  }

  /** What comes next no longer fits the `k`-th piece. */
  predicate IsFull(piece: string, k: nat, after: string) {
    after != "" ==> |Octets(piece)| + |Utf8(after[0])| > Room(k)
  }

  /** Every piece was filled before the next was begun; `current` is the one being filled. */
  predicate AllFull(parts: seq<string>, current: string) {
    forall k {:trigger parts[k]} :: 0 <= k < |parts| ==>
      IsFull(parts[k], k, if k + 1 < |parts| then parts[k + 1] else current)
  }

  /** The pieces a line was cut into: whole characters, none empty, the first of at most 75 octets and each other
   of at most 74, to leave room for its leading space, and no piece shorter than it need be. */
  ghost predicate Pieces(line: string, parts: seq<string>) {
    && parts != [] && Concat(parts) == line
    && (line != "" || |parts| > 1 ==> forall k :: 0 <= k < |parts| ==> parts[k] != "")
    && |Octets(parts[0])| <= LINE
    && (forall k :: 1 <= k < |parts| ==> |Octets(parts[k])| <= LINE - 1)
    && AllFull(parts, "")
  }

  ghost predicate IsFold(line: string, r: string) {
    exists parts :: Pieces(line, parts) && r == Join(parts, "\r\n ")
  }

  lemma {:induction false} ConcatSnoc(parts: seq<string>, p: string)
    ensures Concat(parts + [p]) == Concat(parts) + p
  {
    if parts == [] {
      assert Concat([p]) == p + Concat([]);
    } else {
      ConcatSnoc(parts[1..], p);
      assert (parts + [p])[1..] == parts[1..] + [p];
    }
  }

  /** The chunks cut so far are the octets of whole pieces, each within its budget. */
  ghost predicate Cut(parts: seq<seq<byte>>, texts: seq<string>) {
    && |texts| == |parts|
    && (forall k :: 0 <= k < |parts| ==> parts[k] == Octets(texts[k]))
    && (forall k :: 0 <= k < |parts| ==> 0 < |parts[k]| <= if k == 0 then LINE else LINE - 1)
  }

  method DecodeAll(parts: seq<seq<byte>>, ghost texts: seq<string>) returns (r: seq<string>)
    requires Cut(parts, texts)
    ensures r == texts
  {
    r := [];
    for k := 0 to |parts|
      invariant r == texts[..k]
    {
      DecodedReads(texts[k]);
      r := r + [Decoded(parts[k]).value];
    }
  }

  /** What has been cut and what is being filled make up the text read so far. */
  ghost predicate Filling(done: string, parts: seq<seq<byte>>, texts: seq<string>, chunk: seq<byte>, current: string) {
    Cut(parts, texts) && chunk == Octets(current) && Concat(texts) + current == done
  }

  lemma {:induction false} Flushed(done: string, parts: seq<seq<byte>>, texts: seq<string>, chunk: seq<byte>,
                                   current: string)
    requires Filling(done, parts, texts, chunk, current)
    requires 0 < |chunk| <= if parts == [] then LINE else LINE - 1
    ensures Filling(done, parts + [chunk], texts + [current], [], "")
  {
    ConcatSnoc(texts, current);
  }

  lemma {:induction false} Grown(done: string, parts: seq<seq<byte>>, texts: seq<string>, chunk: seq<byte>,
                                 current: string, c: char)
    requires Filling(done, parts, texts, chunk, current)
    ensures Filling(done + [c], parts, texts, chunk + Utf8(c), current + [c])
  {
    EachConcat(current, [c], Utf8);
    EachOne(c, Utf8);
    assert Concat(texts) + (current + [c]) == Concat(texts) + current + [c];
  }

  lemma {:induction false} FullWhenCut(texts: seq<string>, current: string, next: string)
    requires AllFull(texts, current) && IsFull(current, |texts|, next)
    ensures AllFull(texts + [current], next)
  {
    var all := texts + [current];
    forall k | 0 <= k < |all| ensures IsFull(all[k], k, if k + 1 < |all| then all[k + 1] else next) {
      if k < |texts| { assert all[k] == texts[k]; }
    }
  }

  lemma {:induction false} FullWhenGrown(texts: seq<string>, current: string, c: char)
    requires AllFull(texts, current) && current != ""
    ensures AllFull(texts, current + [c])
  {
  }

  /** Where the cutting of a line stands. */
  ghost predicate Going(done: string, parts: seq<seq<byte>>, texts: seq<string>, chunk: seq<byte>, current: string) {
    && Filling(done, parts, texts, chunk, current) && |chunk| <= Room(|parts|)
    && AllFull(texts, current) && (current == "" ==> texts == [])
  }

  lemma {:induction false} GrowsOn(done: string, parts: seq<seq<byte>>, texts: seq<string>, chunk: seq<byte>,
                                   current: string, c: char)
    requires Going(done, parts, texts, chunk, current) && |chunk| + |Utf8(c)| <= Room(|parts|)
    ensures Going(done + [c], parts, texts, chunk + Utf8(c), current + [c])
  {
    Grown(done, parts, texts, chunk, current, c);
    if current != "" { FullWhenGrown(texts, current, c); }
  }

  lemma {:induction false} CutsHere(done: string, parts: seq<seq<byte>>, texts: seq<string>, chunk: seq<byte>,
                                    current: string, c: char)
    requires Going(done, parts, texts, chunk, current) && |chunk| + |Utf8(c)| > Room(|parts|)
    ensures Going(done + [c], parts + [chunk], texts + [current], [] + Utf8(c), "" + [c])
  {
    Flushed(done, parts, texts, chunk, current);
    FullWhenCut(texts, current, [c]);
    Grown(done, parts + [chunk], texts + [current], [], "", c);
    assert "" + [c] == [c];
  }

  /** Cuts a line that is too long into pieces of whole characters that fit, joined by folds. */
  method Fold(line: string) returns (r: string)
    ensures IsFold(line, r)
  {
    if |Octets(line)| <= LINE {
      WholeLine(line);
      return line;
    }
    var parts: seq<seq<byte>> := [];
    var chunk: seq<byte> := [];
    var budget := LINE;
    ghost var texts: seq<string>, current := [], "";
    for k := 0 to |line|
      invariant Going(line[..k], parts, texts, chunk, current)
      invariant budget == Room(|parts|)
    {
      var piece := Utf8(line[k]);
      assert line[..k + 1] == line[..k] + [line[k]];
      if |chunk| + |piece| > budget {
        CutsHere(line[..k], parts, texts, chunk, current, line[k]);
        parts, texts := parts + [chunk], texts + [current];
        chunk, current := [], "";
        budget := LINE - 1;
      } else {
        GrowsOn(line[..k], parts, texts, chunk, current, line[k]);
      }
      chunk, current := chunk + piece, current + [line[k]];
    }
    assert line[..|line|] == line;
    LastCut(line, parts, texts, chunk, current);
    if chunk != [] {
      parts, texts := parts + [chunk], texts + [current];
    }
    var decoded := DecodeAll(parts, texts);
    r := Join(decoded, "\r\n ");
  }

  lemma {:induction false} LastCut(line: string, parts: seq<seq<byte>>, texts: seq<string>, chunk: seq<byte>,
                                   current: string)
    requires Going(line, parts, texts, chunk, current) && |Octets(line)| > LINE
    ensures chunk != [] ==> Cut(parts + [chunk], texts + [current]) && Pieces(line, texts + [current])
    ensures chunk == [] ==> Cut(parts, texts) && Pieces(line, texts)
  {
    if chunk != [] {
      Flushed(line, parts, texts, chunk, current);
      FullWhenCut(texts, current, "");
      AllCut(line, parts + [chunk], texts + [current]);
    } else {
      NoOctets(current);
      AllCut(line, parts, texts);
    }
  }

  lemma {:induction false} NoOctets(s: string)
    requires Octets(s) == []
    ensures s == ""
  {
  }

  lemma {:induction false} WholeLine(line: string)
    requires |Octets(line)| <= LINE
    ensures IsFold(line, line)
  {
    assert Concat([line]) == line + Concat([]);
    assert Pieces(line, [line]) && Join([line], "\r\n ") == line;
  }

  lemma {:induction false} AllCut(line: string, parts: seq<seq<byte>>, texts: seq<string>)
    requires Filling(line, parts, texts, [], "") && |Octets(line)| > LINE && AllFull(texts, "")
    ensures Pieces(line, texts)
  {
    assert Concat(texts) + "" == Concat(texts);
    assert texts != [];
  }

  /** What follows a piece begins with a character of its own. */
  lemma {:induction false} FirstHasRoom(x: string, y: string)
    requires y != ""
    ensures |Octets(x + y)| >= |Octets(x)| + |Utf8(y[0])|
  {
    EachConcat(x, y, Utf8);
    EachConcat([y[0]], y[1..], Utf8);
    EachOne(y[0], Utf8);
    assert y == [y[0]] + y[1..];
  }

  lemma {:induction false} ConcatFirst(parts: seq<string>)
    requires |parts| > 1 && parts[1] != ""
    ensures Concat(parts) == parts[0] + Concat(parts[1..])
    ensures Concat(parts[1..]) != "" && Concat(parts[1..])[0] == parts[1][0]
  {
    assert parts[1..][0] == parts[1];
  }

  /** A line of at most 75 octets is left whole. */
  lemma {:induction false} AShortLineIsWhole(line: string, r: string)
    requires IsFold(line, r) && |Octets(line)| <= 75
    ensures r == line
  {
    var parts :| Pieces(line, parts) && r == Join(parts, "\r\n ");
    if |parts| == 1 {
      assert parts == [parts[0]] && Concat(parts) == parts[0] + Concat([]);
    } else {
      TwoPiecesAreLong(line, parts);
    }
  }

  lemma {:induction false} TwoPiecesAreLong(line: string, parts: seq<string>)
    requires Pieces(line, parts) && |parts| > 1
    ensures |Octets(line)| > 75
  {
    ConcatFirst(parts);
    FirstHasRoom(parts[0], Concat(parts[1..]));
    assert IsFull(parts[0], 0, parts[1]);
  }

  // ---- Unfolding, and the physical lines ----

  predicate FoldsHere(s: string) {
    |s| >= 3 && s[0] == '\r' && s[1] == '\n' && (s[2] == ' ' || s[2] == '\t')
  }

  /** Every CRLF followed by one space or tab goes. */
  function Unfolded(s: string): string {
    if s == "" then ""
    else if FoldsHere(s) then Unfolded(s[3..])
    else [s[0]] + Unfolded(s[1..])
  }

  /** The physical lines: what CRLF separates. */
  function Lines(s: string): (r: seq<string>)
    ensures r != []
  {
    if s == "" then [""]
    else if |s| >= 2 && s[0] == '\r' && s[1] == '\n' then [""] + Lines(s[2..])
    else
      var rest := Lines(s[1..]);
      [[s[0]] + rest[0]] + rest[1..]
  }

  lemma {:induction false} UnfoldPlain(x: string, y: string)
    requires Plain(x)
    ensures Unfolded(x + y) == x + Unfolded(y)
  {
    if x == "" {
      assert x + y == y;
    } else {
      var z := x + y;
      UnfoldPlain(x[1..], y);
      assert z[1..] == x[1..] + y && z[0] == x[0];
      assert Unfolded(z) == [x[0]] + Unfolded(z[1..]);
      assert x + Unfolded(y) == [x[0]] + (x[1..] + Unfolded(y));
    }
  }

  lemma {:induction false} LinesPlain(x: string, y: string)
    requires Plain(x)
    ensures Lines(x + y) == [x + Lines(y)[0]] + Lines(y)[1..]
  {
    if x == "" {
      assert x + y == y && x + Lines(y)[0] == Lines(y)[0];
    } else {
      var z := x + y;
      LinesPlain(x[1..], y);
      assert z[1..] == x[1..] + y && z[0] == x[0];
      var rest := Lines(z[1..]);
      assert Lines(z) == [[x[0]] + rest[0]] + rest[1..];
      assert rest[0] == x[1..] + Lines(y)[0] && rest[1..] == Lines(y)[1..];
      assert x + Lines(y)[0] == [x[0]] + (x[1..] + Lines(y)[0]);
    }
  }

  lemma {:induction false} LinesBreak(x: string, y: string)
    requires Plain(x)
    ensures Lines(x + "\r\n" + y) == [x] + Lines(y)
  {
    var z := "\r\n" + y;
    assert x + "\r\n" + y == x + z;
    LinesPlain(x, z);
    assert z[2..] == y;
    assert Lines(z) == [""] + Lines(y);
    assert x + "" == x;
  }

  lemma {:induction false} ConcatPlain(parts: seq<string>, k: nat)
    requires Plain(Concat(parts)) && k < |parts|
    ensures Plain(parts[k])
  {
    var rest := Concat(parts[1..]);
    assert Plain(parts[0]) by {
      forall i | 0 <= i < |parts[0]| ensures parts[0][i] != '\r' && parts[0][i] != '\n' {
        assert Concat(parts)[i] == parts[0][i];
      }
    }
    assert Plain(rest) by {
      forall i | 0 <= i < |rest| ensures rest[i] != '\r' && rest[i] != '\n' {
        assert Concat(parts)[|parts[0]| + i] == rest[i];
      }
    }
    if k > 0 { ConcatPlain(parts[1..], k - 1); }
  }

  /** Pieces joined by folds unfold to their text, whatever follows. */
  lemma {:induction false} UnfoldJoin(parts: seq<string>, y: string)
    requires parts != [] && forall k :: 0 <= k < |parts| ==> Plain(parts[k])
    ensures Unfolded(Join(parts, "\r\n ") + y) == Concat(parts) + Unfolded(y)
  {
    var x := parts[0];
    if |parts| == 1 {
      UnfoldPlain(x, y);
      assert Concat(parts) == x + Concat(parts[1..]) && Concat(parts) == x;
    } else {
      var rest := Join(parts[1..], "\r\n ") + y;
      var z := "\r\n " + rest;
      UnfoldJoin(parts[1..], y);
      assert Join(parts, "\r\n ") + y == x + z;
      UnfoldPlain(x, z);
      assert FoldsHere(z) && z[3..] == rest;
      assert x + (Concat(parts[1..]) + Unfolded(y)) == x + Concat(parts[1..]) + Unfolded(y);
    }
  }

  /** Unfolding a folded line gives the line back. */
  lemma {:induction false} UnfoldInverts(line: string, r: string)
    requires Plain(line) && IsFold(line, r)
    ensures Unfolded(r) == line
  {
    var parts :| Pieces(line, parts) && r == Join(parts, "\r\n ");
    forall k | 0 <= k < |parts| ensures Plain(parts[k]) { ConcatPlain(parts, k); }
    UnfoldJoin(parts, "");
    assert r + "" == r && Concat(parts) + "" == Concat(parts);
  }

  predicate Short(lines: seq<string>) {
    forall k :: 0 <= k < |lines| ==> |Octets(lines[k])| <= LINE
  }

  lemma {:induction false} SpaceThenPart(part: string)
    requires |Octets(part)| <= LINE - 1
    ensures |Octets(" " + part)| <= LINE
  {
    EachConcat(" ", part, Utf8);
    EachOne(' ', Utf8);
  }

  lemma {:induction false} JoinIsShort(parts: seq<string>, lead: string, y: string)
    requires parts != [] && forall k :: 0 <= k < |parts| ==> Plain(parts[k])
    requires Plain(lead) && |Octets(lead + parts[0])| <= LINE && Short(Lines(y))
    requires forall k :: 1 <= k < |parts| ==> |Octets(parts[k])| <= LINE - 1
    ensures Short(Lines(lead + Join(parts, "\r\n ") + "\r\n" + y))
  {
    var x := lead + parts[0];
    if |parts| == 1 {
      LinesBreak(x, y);
    } else {
      var rest := " " + Join(parts[1..], "\r\n ") + "\r\n" + y;
      SpaceThenPart(parts[1]);
      JoinIsShort(parts[1..], " ", y);
      assert lead + Join(parts, "\r\n ") + "\r\n" + y == x + "\r\n" + rest;
      LinesBreak(x, rest);
    }
  }

  /** A folded line, ended, adds only physical lines of at most 75 octets of whole characters. */
  lemma {:induction false} FoldedLinesAreShort(line: string, r: string, y: string)
    requires Plain(line) && IsFold(line, r) && Short(Lines(y))
    ensures Short(Lines(r + "\r\n" + y))
  {
    var parts :| Pieces(line, parts) && r == Join(parts, "\r\n ");
    forall k | 0 <= k < |parts| ensures Plain(parts[k]) { ConcatPlain(parts, k); }
    assert "" + parts[0] == parts[0] && "" + r == r;
    JoinIsShort(parts, "", y);
  }

  // ---- Escaping ----

  predicate Control(c: char) {
    var n := c as int;
    || n <= 0x09 || n == 0x0B || n == 0x0C || (0x0E <= n <= 0x1F)
    || (0x7F <= n <= 0x9F) || n == 0x2028 || n == 0x2029
  }

  function Blank(c: char): string {
    if Control(c) then " " else [c]
  }

  function Swap(c: char, t: string): char -> string {
    (x: char) => if x == c then t else [x]
  }

  function Blanked(s: string): string {
    Each(s, Blank)
  }

  function Replaced(s: string, c: char, t: string): string {
    Each(s, Swap(c, t))
  }

  function CrlfReplaced(s: string, t: string): string {
    if s == "" then ""
    else if |s| >= 2 && s[0] == '\r' && s[1] == '\n' then t + CrlfReplaced(s[2..], t)
    else [s[0]] + CrlfReplaced(s[1..], t)
  }

  function Marked(s: string): string {
    Replaced(Replaced(Replaced(Blanked(s), '\\', "\\\\"), ';', "\\;"), ',', "\\,")
  }

  function Broken(s: string): string {
    Replaced(Replaced(CrlfReplaced(s, "\\n"), '\n', "\\n"), '\r', "\\n")
  }

  /** One pass of replacements after another, as the program escapes a text. */
  function Escaped(s: string): string {
    Broken(Marked(s))
  }

  /** Reading an escaped text: backslash, semicolon, comma and line break. */
  function Unescaped(s: string): string {
    if s == "" then ""
    else if s[0] == '\\' && |s| >= 2 && s[1] in {'\\', ';', ','} then [s[1]] + Unescaped(s[2..])
    else if s[0] == '\\' && |s| >= 2 && s[1] in {'n', 'N'} then ['\n'] + Unescaped(s[2..])
    else [s[0]] + Unescaped(s[1..])
  }

  /** What a reader is to see: control characters as spaces, every line end as one LF. */
  function Normal(s: string): string {
    if s == "" then ""
    else if |s| >= 2 && s[0] == '\r' && s[1] == '\n' then ['\n'] + Normal(s[2..])
    else [if Control(s[0]) then ' ' else if s[0] == '\r' then '\n' else s[0]] + Normal(s[1..])
  }

  lemma {:induction false} CrlfConcat(s: string, u: string, t: string)
    requires Plain(s)
    ensures CrlfReplaced(s + u, t) == s + CrlfReplaced(u, t)
  {
    if s == "" {
      assert s + u == u;
    } else {
      CrlfConcat(s[1..], u, t);
      assert (s + u)[1..] == s[1..] + u;
      assert s == [s[0]] + s[1..];
    }
  }

  lemma {:induction false} ReplacedNone(s: string, c: char, t: string)
    requires forall i :: 0 <= i < |s| ==> s[i] != c
    ensures Replaced(s, c, t) == s
  {
    if s != "" {
      ReplacedNone(s[1..], c, t);
      assert s == [s[0]] + s[1..];
    }
  }

  /** What marking makes of one character. */
  function Mark(c: char): string {
    if Control(c) then " "
    else if c == '\\' then "\\\\"
    else if c == ';' then "\\;"
    else if c == ',' then "\\,"
    else [c]
  }

  lemma {:induction false} MarkOne(c: char)
    ensures Marked([c]) == Mark(c)
  {
    var b := Blank(c);
    EachOne(c, Blank);
    EachOne('\\', Swap('\\', "\\\\"));
    EachOne(';', Swap(';', "\\;"));
    EachOne(',', Swap(',', "\\,"));
    if b == "\\" {
      ReplacedNone("\\\\", ';', "\\;");
      ReplacedNone("\\\\", ',', "\\,");
    } else {
      ReplacedNone(b, '\\', "\\\\");
      if b == ";" {
        ReplacedNone("\\;", ',', "\\,");
      } else {
        ReplacedNone(b, ';', "\\;");
        if b != "," { ReplacedNone(b, ',', "\\,"); }
      }
    }
  }

  lemma {:induction false} MarkedConcat(s: string, t: string)
    ensures Marked(s + t) == Marked(s) + Marked(t)
  {
    EachConcat(s, t, Blank);
    var b, d := Blanked(s), Blanked(t);
    EachConcat(b, d, Swap('\\', "\\\\"));
    b, d := Replaced(b, '\\', "\\\\"), Replaced(d, '\\', "\\\\");
    EachConcat(b, d, Swap(';', "\\;"));
    EachConcat(Replaced(b, ';', "\\;"), Replaced(d, ';', "\\;"), Swap(',', "\\,"));
  }

  lemma {:induction false} MarkFirst(s: string)
    requires s != ""
    ensures Marked(s) == Mark(s[0]) + Marked(s[1..])
  {
    assert s == [s[0]] + s[1..];
    MarkedConcat([s[0]], s[1..]);
    MarkOne(s[0]);
  }

  /** A marked text starts with a line feed only where the text does. */
  lemma {:induction false} MarkedStart(s: string)
    ensures Marked(s) != "" && Marked(s)[0] == '\n' ==> s != "" && s[0] == '\n'
  {
    if s == "" {
      assert Marked("") == "";
    } else {
      MarkFirst(s);
    }
  }

  /** Replacing line ends goes through a text in order, unless it cuts a CRLF in two. */
  lemma {:induction false} LineEndsConcat(x: string, y: string)
    ensures Replaced(Replaced(x + y, '\n', "\\n"), '\r', "\\n")
            == Replaced(Replaced(x, '\n', "\\n"), '\r', "\\n") + Replaced(Replaced(y, '\n', "\\n"), '\r', "\\n")
  {
    EachConcat(x, y, Swap('\n', "\\n"));
    EachConcat(Replaced(x, '\n', "\\n"), Replaced(y, '\n', "\\n"), Swap('\r', "\\n"));
  }

  lemma {:induction false} BrokenPlain(x: string, y: string)
    requires Plain(x)
    ensures Broken(x + y) == x + Broken(y)
  {
    CrlfConcat(x, y, "\\n");
    LineEndsConcat(x, CrlfReplaced(y, "\\n"));
    ReplacedNone(x, '\n', "\\n");
    ReplacedNone(x, '\r', "\\n");
  }

  lemma {:induction false} BrokenAtEnd(s: string, y: string)
    requires s in ["\r\n", "\n", "\r"] && (s == "\r" ==> y == "" || y[0] != '\n')
    ensures Broken(s + y) == "\\n" + Broken(y)
  {
    var u := s + y;
    var first := if s == "\r\n" then "\\n" else s;
    assert CrlfReplaced(u, "\\n") == first + CrlfReplaced(y, "\\n") by {
      if s == "\r\n" { assert u[2..] == y; } else { assert u[1..] == y; }
    }
    LineEndsConcat(first, CrlfReplaced(y, "\\n"));
    LineEnd(first);
  }

  lemma {:induction false} LineEnd(s: string)
    requires s in ["\\n", "\n", "\r"]
    ensures Replaced(Replaced(s, '\n', "\\n"), '\r', "\\n") == "\\n"
  {
    ReplacedNone("\\n", '\n', "\\n");
    ReplacedNone("\\n", '\r', "\\n");
    ReplacedNone("\r", '\n', "\\n");
    EachOne('\n', Swap('\n', "\\n"));
    EachOne('\r', Swap('\r', "\\n"));
  }

  lemma {:induction false} UnescapeMark(c: char, y: string)
    requires c != '\r' && c != '\n'
    ensures Plain(Mark(c))
    ensures Unescaped(Mark(c) + y) == Blank(c) + Unescaped(y)
  {
    var x := Mark(c) + y;
    if |Mark(c)| == 1 { assert x[1..] == y; } else { assert x[2..] == y; }
  }

  lemma {:induction false} UnescapeBreak(y: string)
    ensures Unescaped("\\n" + y) == "\n" + Unescaped(y)
  {
    assert ("\\n" + y)[2..] == y;
  }

  /** How much of a text its first line end takes, and zero where it does not start with one. */
  function LineEndOf(s: string): (n: nat)
    ensures n <= |s|
  {
    if |s| >= 2 && s[0] == '\r' && s[1] == '\n' then 2
    else if s != "" && (s[0] == '\r' || s[0] == '\n') then 1
    else 0
  }

  lemma {:induction false} EscapedBreak(s: string)
    requires LineEndOf(s) > 0
    ensures Escaped(s) == "\\n" + Escaped(s[LineEndOf(s)..])
  {
    var n := LineEndOf(s);
    var rest := s[n..];
    MarkFirst(s);
    if n == 2 {
      MarkFirst(s[1..]);
      assert s[1..][1..] == rest;
      assert Marked(s) == "\r\n" + Marked(rest);
    }
    MarkedStart(rest);
    BrokenAtEnd(if n == 2 then "\r\n" else [s[0]], Marked(rest));
  }

  lemma {:induction false} EscapedOther(s: string)
    requires s != "" && LineEndOf(s) == 0
    ensures Escaped(s) == Mark(s[0]) + Escaped(s[1..])
  {
    MarkFirst(s);
    UnescapeMark(s[0], "");
    BrokenPlain(Mark(s[0]), Marked(s[1..]));
  }

  lemma {:induction false} PlainConcat(x: string, y: string)
    requires Plain(x) && Plain(y)
    ensures Plain(x + y)
  {
  }

  /** Unescaping an escaped text gives back what a reader is to see. */
  lemma {:induction false} UnescapeInverts(s: string)
    ensures Unescaped(Escaped(s)) == Normal(s)
    ensures Plain(Escaped(s))
    decreases |s|
  {
    var n := LineEndOf(s);
    if s == "" {
    } else if n > 0 {
      UnescapeInverts(s[n..]);
      EscapedBreak(s);
      UnescapeBreak(Escaped(s[n..]));
      PlainConcat("\\n", Escaped(s[n..]));
    } else {
      UnescapeInverts(s[1..]);
      EscapedOther(s);
      UnescapeMark(s[0], Escaped(s[1..]));
      PlainConcat(Mark(s[0]), Escaped(s[1..]));
    }
  }

  // ---- The whole file ----

  /** What the file is made from; only the summary may hold a line break. */
  datatype Entry = Entry(id: string, sequence: string, now: string, starts: string, ends: string, summary: string)

  predicate Sound(e: Entry) {
    Plain(e.id) && Plain(e.sequence) && Plain(e.now) && Plain(e.starts) && Plain(e.ends)
  }

  function Line(name: string, value: string): string {
    name + ":" + value
  }

  /** The content lines, before folding. */
  function Content(e: Entry): seq<string> {
    ["BEGIN:VCALENDAR", "VERSION:2.0", "PRODID:-//ziftbook//booking//EN", "CALSCALE:GREGORIAN", "METHOD:PUBLISH",
     "BEGIN:VEVENT", Line("UID", e.id + "@ziftbook.com"), Line("SEQUENCE", e.sequence), Line("DTSTAMP", e.now),
     Line("DTSTART", e.starts), Line("DTEND", e.ends), Line("SUMMARY", Escaped(e.summary)), "END:VEVENT",
     "END:VCALENDAR"]
  }

  /** A line a reader takes for the start of a new one. */
  predicate Fresh(line: string) {
    line != "" && Plain(line) && line[0] != ' ' && line[0] != '\t'
  }

  /** The first lines, each folded. */
  ghost predicate FoldedSoFar(lines: seq<string>, folded: seq<string>) {
    |folded| <= |lines| && forall k :: 0 <= k < |folded| ==> IsFold(lines[k], folded[k])
  }

  lemma {:induction false} OneMoreFolded(lines: seq<string>, folded: seq<string>, x: string)
    requires FoldedSoFar(lines, folded) && |folded| < |lines| && IsFold(lines[|folded|], x)
    ensures FoldedSoFar(lines, folded + [x])
  {
    var all := folded + [x];
    forall k | 0 <= k < |all| ensures IsFold(lines[k], all[k]) {
      if k < |folded| { assert all[k] == folded[k]; }
    }
  }

  /** Every line folded and ended. */
  method Folded(lines: seq<string>) returns (file: string, ghost folded: seq<string>)
    ensures |folded| == |lines| && FoldedSoFar(lines, folded)
    ensures file == Terminated(folded)
  {
    file, folded := "", [];
    for k := 0 to |lines|
      invariant |folded| == k && FoldedSoFar(lines, folded)
      invariant file == Terminated(folded)
    {
      var line := Fold(lines[k]);
      TerminatedSnoc(folded, line);
      OneMoreFolded(lines, folded, line);
      file := file + line + "\r\n";
      folded := folded + [line];
    }
  }

  /** Each line with the line end after it. */
  function Terminated(lines: seq<string>): string {
    if lines == [] then "" else lines[0] + "\r\n" + Terminated(lines[1..])
  }

  lemma {:induction false} TerminatedSnoc(lines: seq<string>, x: string)
    ensures Terminated(lines + [x]) == Terminated(lines) + x + "\r\n"
  {
    if lines != [] {
      TerminatedSnoc(lines[1..], x);
      assert (lines + [x])[1..] == lines[1..] + [x];
    } else {
      assert Terminated([x]) == x + "\r\n" + Terminated([]);
    }
  }

  lemma {:induction false} FoldStarts(line: string, r: string)
    requires IsFold(line, r) && line != ""
    ensures r != "" && r[0] == line[0]
  {
    var parts :| Pieces(line, parts) && r == Join(parts, "\r\n ");
    assert Concat(parts)[0] == parts[0][0];
  }

  /** A line end that does not start a fold stays. */
  lemma {:induction false} UnfoldBreak(y: string)
    requires y == "" || (y[0] != ' ' && y[0] != '\t')
    ensures Unfolded("\r\n" + y) == "\r\n" + Unfolded(y)
  {
    var z := "\r\n" + y;
    assert z[1..] == "\n" + y && z[1..][1..] == y;
    assert !FoldsHere(z) && !FoldsHere(z[1..]);
  }

  ghost predicate FoldsOf(lines: seq<string>, folded: seq<string>) {
    && |folded| == |lines|
    && forall k :: 0 <= k < |lines| ==> IsFold(lines[k], folded[k]) && Fresh(lines[k])
  }

  lemma {:induction false} LineUnfolds(line: string, r: string, y: string)
    requires IsFold(line, r) && Plain(line) && (y == "" || (y[0] != ' ' && y[0] != '\t'))
    ensures Unfolded(r + ("\r\n" + y)) == line + ("\r\n" + Unfolded(y))
  {
    var parts :| Pieces(line, parts) && r == Join(parts, "\r\n ");
    forall k | 0 <= k < |parts| ensures Plain(parts[k]) { ConcatPlain(parts, k); }
    UnfoldJoin(parts, "\r\n" + y);
    UnfoldBreak(y);
  }

  lemma {:induction false} FoldedStart(lines: seq<string>, folded: seq<string>)
    requires FoldsOf(lines, folded)
    ensures
      var y := Terminated(folded);
      y == "" || (y[0] != ' ' && y[0] != '\t')
  {
    if lines != [] {
      FoldStarts(lines[0], folded[0]);
    }
  }

  lemma {:induction false} TerminatedFirst(x: string, rest: seq<string>)
    ensures Terminated([x] + rest) == x + ("\r\n" + Terminated(rest))
  {
    assert ([x] + rest)[1..] == rest;
  }

  /** Unfolding the file gives the content lines, each ended. */
  lemma {:induction false} FileUnfolds(lines: seq<string>, folded: seq<string>)
    requires FoldsOf(lines, folded)
    ensures Unfolded(Terminated(folded)) == Terminated(lines)
  {
    if lines != [] {
      FileUnfolds(lines[1..], folded[1..]);
      FoldedStart(lines[1..], folded[1..]);
      LineUnfolds(lines[0], folded[0], Terminated(folded[1..]));
      TerminatedFirst(lines[0], lines[1..]);
      TerminatedFirst(folded[0], folded[1..]);
      assert lines == [lines[0]] + lines[1..] && folded == [folded[0]] + folded[1..];
    }
  }

  lemma {:induction false} LinesOfTerminated(lines: seq<string>)
    requires forall k :: 0 <= k < |lines| ==> Plain(lines[k])
    ensures Lines(Terminated(lines)) == lines + [""]
  {
    if lines != [] {
      LinesOfTerminated(lines[1..]);
      LinesBreak(lines[0], Terminated(lines[1..]));
    }
  }

  /** A reader that unfolds the file and splits it at its line ends has the content lines again. */
  lemma {:induction false} FileReadsBack(lines: seq<string>, folded: seq<string>)
    requires FoldsOf(lines, folded)
    ensures Lines(Unfolded(Terminated(folded))) == lines + [""]
  {
    FileUnfolds(lines, folded);
    LinesOfTerminated(lines);
  }

  /** Every physical line of the file is at most 75 octets of whole characters. */
  lemma {:induction false} FileIsShort(lines: seq<string>, folded: seq<string>)
    requires FoldsOf(lines, folded)
    ensures Short(Lines(Terminated(folded)))
  {
    if lines != [] {
      FileIsShort(lines[1..], folded[1..]);
      FoldedLinesAreShort(lines[0], folded[0], Terminated(folded[1..]));
    }
  }

  lemma {:induction false} LineIsFresh(name: string, value: string)
    requires Fresh(name) && Plain(value)
    ensures Fresh(Line(name, value))
  {
    assert forall i :: 0 <= i < |name| ==> Line(name, value)[i] == name[i];
  }

  lemma {:induction false} FixedLinesAreFresh()
    ensures Fresh("BEGIN:VCALENDAR") && Fresh("VERSION:2.0") && Fresh("PRODID:-//ziftbook//booking//EN")
    ensures Fresh("CALSCALE:GREGORIAN") && Fresh("METHOD:PUBLISH") && Fresh("BEGIN:VEVENT")
    ensures Fresh("END:VEVENT") && Fresh("END:VCALENDAR")
  {
  }

  lemma {:induction false} NamesAreFresh()
    ensures Fresh("UID") && Plain("@ziftbook.com") && Fresh("SEQUENCE") && Fresh("DTSTAMP")
    ensures Fresh("DTSTART") && Fresh("DTEND") && Fresh("SUMMARY")
  {
  }

  lemma {:induction false} ContentIsFresh(e: Entry)
    requires Sound(e)
    ensures forall k :: 0 <= k < 14 ==> Fresh(Content(e)[k])
  {
    FixedLinesAreFresh();
    NamesAreFresh();
    UnescapeInverts(e.summary);
    LineIsFresh("UID", e.id + "@ziftbook.com");
    LineIsFresh("SEQUENCE", e.sequence);
    LineIsFresh("DTSTAMP", e.now);
    LineIsFresh("DTSTART", e.starts);
    LineIsFresh("DTEND", e.ends);
    LineIsFresh("SUMMARY", Escaped(e.summary));
  }

  /** The booking's file: it reads back to its content lines, its summary unescapes to the booking's,
   and no physical line is longer than 75 octets. */
  method Ics(e: Entry)
    returns (file: string)
    requires Sound(e)
    ensures Lines(Unfolded(file)) == Content(e) + [""]
    ensures Short(Lines(file))
  {
    var lines := Content(e);
    ContentIsFresh(e);
    ghost var folded;
    file, folded := Folded(lines);
    FileReadsBack(lines, folded);
    FileIsShort(lines, folded);
  }

  /** The line is this property's: its name and a colon come first. */
  predicate Names(line: string, name: string) {
    |name| < |line| && line[..|name|] == name && line[|name|] == ':'
  }

  /** What a reader finds under a name: the rest of the first line that has it. */
  function Property(lines: seq<string>, name: string): Option<string> {
    if lines == [] then None
    else if Names(lines[0], name) then Some(lines[0][|name| + 1..])
    else Property(lines[1..], name)
  }

  lemma {:induction false} PropertyAt(lines: seq<string>, k: nat, name: string, value: string)
    requires k < |lines| && lines[k] == Line(name, value)
    requires forall j :: 0 <= j < k ==> !Names(lines[j], name)
    ensures Property(lines, name) == Some(value)
  {
    if k == 0 {
      assert lines[0][..|name|] == name && lines[0][|name| + 1..] == value;
    } else {
      PropertyAt(lines[1..], k - 1, name, value);
    }
  }

  /** A line whose name differs from this one somewhere is not this property's. */
  lemma {:induction false} Differs(line: string, name: string, at: nat)
    requires at < |name| && (at < |line| ==> line[at] != name[at])
    ensures !Names(line, name)
  {
    if |name| < |line| { assert line[..|name|][at] == line[at]; }
  }

  /** The first lines have none of the booking's own names. */
  lemma {:induction false} HeadDiffers(e: Entry, name: string, k: nat)
    requires k < 6 && name in ["UID", "SEQUENCE", "DTSTAMP", "DTSTART", "DTEND", "SUMMARY"]
    ensures !Names(Content(e)[k], name)
  {
    Differs(Content(e)[k], name, 0);
  }

  function NameOf(m: nat): string
    requires 6 <= m < 12
  {
    ["UID", "SEQUENCE", "DTSTAMP", "DTSTART", "DTEND", "SUMMARY"][m - 6]
  }

  /** Nor does a line before its own. */
  lemma {:induction false} BodyDiffers(e: Entry, k: nat, m: nat)
    requires 6 <= k < m < 12
    ensures !Names(Content(e)[k], NameOf(m))
  {
    var at := if m == 9 && k == 8 then 5 else if m == 10 && k >= 8 then 2 else if m == 11 && k == 7 then 1 else 0;
    Differs(Content(e)[k], NameOf(m), at);
  }

  /** What the `m`-th line says under its name. */
  function ValueOf(e: Entry, m: nat): string {
    match m
    case 6 => e.id + "@ziftbook.com"
    case 7 => e.sequence
    case 8 => e.now
    case 9 => e.starts
    case 10 => e.ends
    case _ => Escaped(e.summary)
  }

  lemma {:induction false} FieldReads(e: Entry, m: nat)
    requires 6 <= m < 12
    ensures Property(Content(e) + [""], NameOf(m)) == Some(ValueOf(e, m))
  {
    var lines := Content(e) + [""];
    assert lines[m] == Line(NameOf(m), ValueOf(e, m));
    forall k | 0 <= k < m ensures !Names(lines[k], NameOf(m)) {
      if k < 6 { HeadDiffers(e, NameOf(m), k); } else { BodyDiffers(e, k, m); }
    }
    PropertyAt(lines, m, NameOf(m), ValueOf(e, m));
  }

  /** What a reader finds in the file is the booking's: its id, its moves, its stamps and its summary. */
  lemma {:induction false} EveryFieldReadsBack(e: Entry, file: string)
    requires Lines(Unfolded(file)) == Content(e) + [""]
    ensures
      var lines := Lines(Unfolded(file));
      && Property(lines, "UID") == Some(e.id + "@ziftbook.com")
      && Property(lines, "SEQUENCE") == Some(e.sequence)
      && Property(lines, "DTSTAMP") == Some(e.now)
      && Property(lines, "DTSTART") == Some(e.starts)
      && Property(lines, "DTEND") == Some(e.ends)
    ensures
      var summary := Property(Lines(Unfolded(file)), "SUMMARY");
      summary.Some? && Unescaped(summary.value) == Normal(e.summary)
  {
    FieldReads(e, 6);
    FieldReads(e, 7);
    FieldReads(e, 8);
    FieldReads(e, 9);
    FieldReads(e, 10);
    FieldReads(e, 11);
    UnescapeInverts(e.summary);
  }

  /** Nothing a reader sees is a control character, a line or a paragraph separator, but for the line ends. */
  lemma {:induction false} NoControlIsLeft(s: string, i: nat)
    requires i < |Normal(s)|
    ensures
      var n := Normal(s)[i] as int;
      n == 0x0A || (0x20 <= n < 0x7F) || (0x9F < n && n != 0x2028 && n != 0x2029)
    decreases |s|
  {
    var k := if |s| >= 2 && s[0] == '\r' && s[1] == '\n' then 2 else 1;
    if i > 0 { NoControlIsLeft(s[k..], i - 1); }
  }

  /** A text of no control characters and no carriage returns is read as it was written. */
  lemma {:induction false} OrdinaryTextIsKept(s: string)
    requires forall i :: 0 <= i < |s| ==> !Control(s[i]) && s[i] != '\r'
    ensures Normal(s) == s && Unescaped(Escaped(s)) == s
  {
    UnescapeInverts(s);
    if s != "" {
      OrdinaryTextIsKept(s[1..]);
      assert s == [s[0]] + s[1..];
    }
  }
}
