/**
 The two UART echo servers: one polls, one runs in an interrupt handler with a persistent
 index.  Both must print exactly the input split at carriage returns, each line reduced by
 its backspaces and cut at its first NUL.
 */
module EchoServer {
  import opened Wrappers
  import opened CStrings

  const CR := '\r'
  const DEL := 127 as char
  const SIZE := 128

  // ---- what should be printed ----

  /** A line with its backspaces carried out; a backspace at the start does nothing. */
  function Reduce(line: string): string {
    if line == [] then []
    else
      var r := Reduce(line[..|line| - 1]);
      if line[|line| - 1] != DEL then r + [line[|line| - 1]]
      else if r == [] then [] else r[..|r| - 1]
  }

  /** The pieces between carriage returns; the last one is not terminated yet. */
  function Split(s: string): (r: seq<string>)
    ensures r != []
  {
    if CR !in s then [s]
    else
      var i := FirstCr(s);
      [s[..i]] + Split(s[i + 1..])
  }

  function FirstCr(s: string): (i: nat)
    requires CR in s
    ensures i < |s| && s[i] == CR && CR !in s[..i]
  {
    if s[0] == CR then 0 else 1 + FirstCr(s[1..])
  }

  function Current(s: string): string {
    Split(s)[|Split(s)| - 1]
  }

  function Finished(s: string): seq<string> {
    Split(s)[..|Split(s)| - 1]
  }

  function Reply(line: string): string {
    "Recieved : " + CString(Reduce(line)) + "\r\n"
  }

  function Replies(lines: seq<string>): seq<string> {
    seq(|lines|, i requires 0 <= i < |lines| => Reply(lines[i]))
  }

  /** Everything printed for an input. */
  function Echo(s: string): seq<string> {
    Replies(Finished(s))
  }

  /**
   The condition under which the 128-byte buffer is never overrun (FitsExactly): whenever a
   character other than backspace arrives, at most 127 characters of its line survive.
   */
  ghost predicate Fits(s: string) {
    forall k :: 0 <= k < |s| && s[k] != DEL ==> |Reduce(Current(s[..k]))| < SIZE
  }

  /** One reply for each finished line, with its text around the reduced line, cut at a NUL. */
  lemma EchoLines(s: string)
    ensures |Echo(s)| == |Split(s)| - 1
    ensures forall i :: 0 <= i < |Echo(s)| ==> Echo(s)[i] == "Recieved : " + CString(Reduce(Split(s)[i])) + "\r\n"
  {
    hide Split, Reduce, CString;
  }

  // ---- laws of the reduction ----

  lemma ReduceSnoc(s: string, c: char)
    ensures Reduce(s + [c]) == if c != DEL then Reduce(s) + [c]
                               else if Reduce(s) == [] then [] else Reduce(s)[..|Reduce(s)| - 1]
  {
    assert (s + [c])[..|s|] == s;
  }

  lemma {:induction false} ReduceCongruent(a: string, b: string, t: string)
    requires Reduce(a) == Reduce(b)
    ensures Reduce(a + t) == Reduce(b + t)
    decreases |t|
  {
    hide Reduce;
    if t == [] {
      assert a + t == a && b + t == b;
    } else {
      var t' := t[..|t| - 1];
      var c := t[|t| - 1];
      ReduceCongruent(a, b, t');
      assert a + t == (a + t') + [c] && b + t == (b + t') + [c];
      ReduceSnoc(a + t', c);
      ReduceSnoc(b + t', c);
    }
  }

  /** A character and the backspace after it cancel, anywhere in the line. */
  lemma BackspaceCancels(a: string, c: char, b: string)
    requires c != DEL
    ensures Reduce(a + [c, DEL] + b) == Reduce(a + b)
  {
    ReduceSnoc(a, c);
    ReduceSnoc(a + [c], DEL);
    assert a + [c, DEL] == (a + [c]) + [DEL];
    ReduceCongruent(a + [c, DEL], a, b);
  }

  /** A backspace at the start of a line is ignored. */
  lemma LeadingBackspace(b: string)
    ensures Reduce([DEL] + b) == Reduce(b)
  {
    ReduceSnoc([], DEL);
    assert [] + [DEL] == [DEL] && [] + b == b;
    ReduceCongruent([DEL], [], b);
  }

  /** Without backspaces nothing changes, and no backspace survives. */
  lemma {:induction false} ReduceNormal(s: string)
    ensures DEL !in s ==> Reduce(s) == s
    ensures DEL !in Reduce(s)
  {
    if s != [] {
      ReduceNormal(s[..|s| - 1]);
      assert s == s[..|s| - 1] + [s[|s| - 1]];
    }
  }

  /** For instance, with the character 127 as the backspace. */
  lemma ReduceExample()
    ensures Reduce(['a', 'b', 127 as char, 'c']) == "ac"
  {
    BackspaceCancels("a", 'b', "c");
    assert "a" + ['b', DEL] + "c" == ['a', 'b', 127 as char, 'c'];
    assert "a" + "c" == "ac";
    ReduceNormal("ac");
  }

  // ---- splitting one character at a time ----

  /** Joining the pieces with carriage returns gives the input back, and no piece holds one. */
  lemma {:induction false} SplitMeaning(s: string)
    ensures Join(Split(s)) == s
    ensures forall i :: 0 <= i < |Split(s)| ==> CR !in Split(s)[i]
    decreases |s|
  {
    if CR in s {
      var i := FirstCr(s);
      SplitMeaning(s[i + 1..]);
      assert Split(s)[1..] == Split(s[i + 1..]);
      assert s == s[..i] + [CR] + s[i + 1..];
    }
  }

  function Join(pieces: seq<string>): string
    requires pieces != []
  {
    if |pieces| == 1 then pieces[0] else pieces[0] + [CR] + Join(pieces[1..])
  }

  lemma {:induction false} SplitSnoc(s: string, c: char)
    ensures Split(s + [c]) ==
            if c == CR then Split(s) + [[]] else Finished(s) + [Current(s) + [c]]
    decreases |s|
  {
    hide Split;
    if CR in s {
      var i := FirstCr(s);
      SplitFirst(s, [c]);
      SplitFirst(s, []);
      assert s + [] == s && s[i + 1..] + [] == s[i + 1..];
      SplitSnoc(s[i + 1..], c);
      PrependPiece(s[..i], s, s[i + 1..]);
    } else {
      SplitPlain(s, c);
    }
  }

  lemma SplitPlain(s: string, c: char)
    requires CR !in s
    ensures Split(s) == [s]
    ensures Split(s + [c]) == if c == CR then [s, []] else [s + [c]]
  {
    if c == CR {
      FirstCrAt(s, []);
      assert s + [c] == s + [CR] + [];
      assert (s + [c])[..|s|] == s && (s + [c])[|s| + 1..] == [];
      assert Split([]) == [[]];
    }
  }

  /** The first piece ends at the first carriage return, whatever is appended. */
  lemma SplitFirst(s: string, t: string)
    requires CR in s
    ensures Split(s + t) == [s[..FirstCr(s)]] + Split(s[FirstCr(s) + 1..] + t)
  {
    hide FirstCr;
    var i := FirstCr(s);
    FirstCrStays(s, t);
    assert (s + t)[..i] == s[..i] && (s + t)[i + 1..] == s[i + 1..] + t;
  }

  lemma PrependPiece(p: string, s: string, t: string)
    requires Split(s) == [p] + Split(t)
    ensures Finished(s) == [p] + Finished(t) && Current(s) == Current(t)
  {
    hide Split;
  }

  lemma {:induction false} FirstCrStays(s: string, t: string)
    requires CR in s
    ensures CR in s + t && FirstCr(s + t) == FirstCr(s)
    decreases |s|
  {
    assert (s + t)[FirstCr(s)] == CR;
    if s[0] != CR {
      assert (s + t)[1..] == s[1..] + t;
      FirstCrStays(s[1..], t);
    }
  }

  lemma {:induction false} FirstCrAt(s: string, t: string)
    requires CR !in s
    ensures CR in s + [CR] + t && FirstCr(s + [CR] + t) == |s|
    decreases |s|
  {
    assert (s + [CR] + t)[|s|] == CR;
    if s != [] {
      assert (s + [CR] + t)[1..] == s[1..] + [CR] + t;
      FirstCrAt(s[1..], t);
    }
  }

  /** One more character: the current line and the output change as a line editor should. */
  lemma EchoSnoc(s: string, c: char)
    ensures c == CR ==> Echo(s + [c]) == Echo(s) + [Reply(Current(s))] && Reduce(Current(s + [c])) == []
    ensures c != CR ==> Echo(s + [c]) == Echo(s) && Current(s + [c]) == Current(s) + [c]
  {
    SplitSnoc(s, c);
    hide Split, Reply;
    if c == CR {
      assert Finished(s + [c]) == Finished(s) + [Current(s)];
    } else {
      assert Finished(s + [c]) == Finished(s);
    }
  }

  lemma FitsPrefix(s: string, t: string)
    requires Fits(s + t)
    ensures Fits(s)
    ensures t != [] && t[0] != DEL ==> |Reduce(Current(s))| < SIZE
  {
    hide Reduce, Current;
    forall k | 0 <= k < |s| && s[k] != DEL ensures |Reduce(Current(s[..k]))| < SIZE {
      assert (s + t)[..k] == s[..k] && (s + t)[k] == s[k];
    }
    if t != [] && t[0] != DEL {
      assert (s + t)[..|s|] == s && (s + t)[|s|] == t[0];
    }
  }

  lemma {:induction false} ReduceShortens(s: string)
    ensures |Reduce(s)| <= |s|
  {
    if s != [] { ReduceShortens(s[..|s| - 1]); }
  }

  /** The line being typed is the beginning of one of the final lines. */
  lemma {:induction false} CurrentInPiece(a: string, b: string) returns (j: nat)
    ensures j < |Split(a + b)| && Current(a) <= Split(a + b)[j]
    decreases |b|
  {
    hide Split;
    if b == [] {
      assert a + b == a;
      j := |Split(a)| - 1;
    } else {
      var b', c := b[..|b| - 1], b[|b| - 1];
      j := CurrentInPiece(a, b');
      assert a + b == (a + b') + [c];
      SplitSnoc(a + b', c);
    }
  }

  /** Lines of at most 127 characters, or at most 127 surviving ones at any time, always fit. */
  lemma ShortLinesFit(s: string)
    requires || (forall i :: 0 <= i < |Split(s)| ==> |Split(s)[i]| < SIZE)
             || (forall k :: 0 <= k <= |s| ==> |Reduce(Current(s[..k]))| < SIZE)
    ensures Fits(s)
  {
    hide Split, Reduce, Current;
    forall k | 0 <= k < |s| ensures |Reduce(Current(s[..k]))| < SIZE {
      assert s[..k] + s[k..] == s;
      var j := CurrentInPiece(s[..k], s[k..]);
      ReduceShortens(Current(s[..k]));
    }
  }

  // ---- exactly when the unguarded index leaves the buffer ----

  /** The index both editors keep; nothing bounds it from above. */
  function Index(s: string): nat {
    if s == [] then 0
    else
      var i := Index(s[..|s| - 1]);
      var c := s[|s| - 1];
      if c == CR then 0 else if c == DEL then (if i > 0 then i - 1 else 0) else i + 1
  }

  /** Character k makes the editor write past the end of the buffer. */
  predicate OverrunAt(s: string, k: nat) {
    k < |s| && s[k] != DEL && Index(s[..k]) >= SIZE
  }

  lemma IndexSnoc(s: string, c: char)
    ensures Index(s + [c])
            == if c == CR then 0 else if c == DEL then (if Index(s) > 0 then Index(s) - 1 else 0) else Index(s) + 1
  {
    assert (s + [c])[..|s|] == s;
  }

  /** The index counts the surviving characters of the current line. */
  lemma {:induction false} IndexCounts(s: string)
    ensures Index(s) == |Reduce(Current(s))|
  {
    hide Split, Reduce, Current, Index;
    if s == [] {
      IndexEmpty();
    } else {
      var t, c := s[..|s| - 1], s[|s| - 1];
      assert s == t + [c];
      IndexCounts(t);
      IndexSnoc(t, c);
      EchoSnoc(t, c);
      ReduceSnoc(Current(t), c);
    }
  }

  lemma IndexEmpty()
    ensures Index([]) == 0 && |Reduce(Current([]))| == 0
  {
  }

  lemma {:induction false} FirstOverrun(s: string, k: nat) returns (first: nat)
    requires OverrunAt(s, k)
    ensures OverrunAt(s, first) && forall j: nat :: j < first ==> !OverrunAt(s, j)
    decreases k
  {
    hide OverrunAt;
    if j: nat :| j < k && OverrunAt(s, j) { first := FirstOverrun(s, j); } else { first := k; }
  }

  /** A stream does not fit iff there is a first character that is written past the end. */
  lemma FitsExactly(s: string)
    ensures !Fits(s) <==> exists k: nat :: OverrunAt(s, k) && forall j: nat :: j < k ==> !OverrunAt(s, j)
  {
    forall k | 0 <= k < |s| ensures Index(s[..k]) == |Reduce(Current(s[..k]))| { IndexCounts(s[..k]); }
    hide Split, Reduce, Current, Index;
    if !Fits(s) {
      var k :| 0 <= k < |s| && s[k] != DEL && |Reduce(Current(s[..k]))| >= SIZE;
      assert OverrunAt(s, k);
      var first := FirstOverrun(s, k);
    }
  }

  lemma {:induction false} IndexOfLetters(n: nat)
    ensures Index(seq(n, _ => 'a')) == n
  {
    hide Index;
    if n == 0 {
      IndexEmpty();
      assert seq(0, _ => 'a') == [];
    } else {
      IndexOfLetters(n - 1);
      IndexSnoc(seq(n - 1, _ => 'a'), 'a');
      assert seq(n, _ => 'a') == seq(n - 1, _ => 'a') + ['a'];
    }
  }

  /** The buffer holds 128 characters, and a line of letters fits exactly up to that length. */
  lemma LettersFit(n: nat)
    ensures Fits(seq(n, _ => 'a')) <==> n <= 128
  {
    var s: string := seq(n, _ => 'a');
    hide Fits, Index;
    FitsExactly(s);
    forall k | 0 <= k < n ensures Index(s[..k]) == k {
      assert s[..k] == seq(k, _ => 'a');
      IndexOfLetters(k);
    }
    if n > 128 {
      assert OverrunAt(s, 128);
      var first := FirstOverrun(s, 128);
    }
  }

  /** 129 letters without a return are one too many. */
  lemma LongLineOverruns()
    ensures OverrunAt(seq(129, _ => 'a'), 128) && !Fits(seq(129, _ => 'a'))
  {
    var s: string := seq(129, _ => 'a');
    IndexOfLetters(128);
    assert s[..128] == seq(128, _ => 'a');
    hide Index, Fits;
    var first := FirstOverrun(s, 128);
    FitsExactly(s);
  }

  // ---- the line buffer both servers keep ----

  /** The buffer and index hold the reduced current line of the input so far. */
  ghost predicate Edits(instr: seq<char>, index: nat, out: seq<string>, input: string) {
    && |instr| == SIZE && index <= SIZE
    && instr[..index] == Reduce(Current(input))
    && out == Echo(input)
  }

  lemma EchoEmpty()
    ensures Current([]) == [] && Echo([]) == []
  {
  }

  /** Returning prints the current line. */
  lemma EditReturn(before: seq<char>, instr: seq<char>, index: nat, out: seq<string>, input: string)
    requires Edits(before, index, out, input) && index < SIZE && instr == before[index := '\0']
    ensures Edits(instr, 0, out + ["Recieved : " + CString(instr) + "\r\n"], input + [CR])
  {
    EchoSnoc(input, CR);
    assert instr == Reduce(Current(input)) + ['\0'] + before[index + 1..];
    CStringCut(Reduce(Current(input)), before[index + 1..]);
  }

  /** Backspacing steps the index back, unless the line is empty. */
  lemma EditBackspace(instr: seq<char>, index: nat, out: seq<string>, input: string)
    requires Edits(instr, index, out, input)
    ensures Edits(instr, if index > 0 then index - 1 else 0, out, input + [DEL])
  {
    EchoSnoc(input, DEL);
    ReduceSnoc(Current(input), DEL);
    hide Reduce, Current, Echo;
    if index > 0 { assert instr[..index][..index - 1] == instr[..index - 1]; }
  }

  /** Any other character is stored. */
  lemma EditStore(before: seq<char>, instr: seq<char>, index: nat, out: seq<string>, input: string, c: char)
    requires Edits(before, index, out, input) && index < SIZE && instr == before[index := c]
    requires c != CR && c != DEL
    ensures Edits(instr, index + 1, out, input + [c])
  {
    EchoSnoc(input, c);
    ReduceSnoc(Current(input), c);
    hide Reduce, Current, Echo;
    assert instr[..index + 1] == before[..index] + [c];
  }

  // ---- the polling server ----

  /** One turn of the main loop, for a character that has arrived. */
  method Handle(instr: array<char>, index: nat, printed: seq<string>, c: char, ghost input: string)
    returns (i: nat, out: seq<string>)
    requires Edits(instr[..], index, printed, input)
    requires c != DEL ==> |Reduce(Current(input))| < SIZE
    modifies instr
    ensures Edits(instr[..], i, out, input + [c])
  {
    ghost var before := instr[..];
    EditIndex(before, index, printed, input);
    hide Edits, Reduce, Current, Echo, CString;
    i, out := index, printed;
    if c == CR {
      instr[i] := '\0';
      EditReturn(before, instr[..], i, out, input);
      out := out + ["Recieved : " + CString(instr[..]) + "\r\n"];
      i := 0;
    } else {
      if c == DEL {
        EditBackspace(before, i, out, input);
        if i > 0 { i := i - 1; }
        return;
      }
      instr[i] := c;
      EditStore(before, instr[..], i, out, input, c);
      i := i + 1;
    }
  }

  /** The main loop over the characters that arrive. */
  method Poll(stream: string) returns (out: seq<string>)
    requires Fits(stream)
    ensures out == Echo(stream)
  {
    hide Edits, Fits, Reduce, Split, FirstCr, Current, Finished, Reply, Replies, Echo, CString;
    var instr := new char[SIZE];
    var i: nat := 0;
    out := [];
    var n := 0;
    EditStart(instr[..]);
    assert stream[..0] == [];
    while n < |stream|
      invariant 0 <= n <= |stream|
      invariant Edits(instr[..], i, out, stream[..n])
    {
      if stream[n] != DEL { StreamFits(stream, n); }
      assert stream[..n + 1] == stream[..n] + [stream[n]];
      i, out := Handle(instr, i, out, stream[n], stream[..n]);
      n := n + 1;
    }
    assert stream[..n] == stream;
    EditIndex(instr[..], i, out, stream);
  }

  lemma EditStart(instr: seq<char>)
    requires |instr| == SIZE
    ensures Edits(instr, 0, [], [])
  {
    EchoEmpty();
  }

  lemma StreamFits(s: string, n: nat)
    requires Fits(s) && n < |s| && s[n] != DEL
    ensures |Reduce(Current(s[..n]))| < SIZE
  {
  }

  lemma EditIndex(instr: seq<char>, index: nat, out: seq<string>, input: string)
    requires Edits(instr, index, out, input)
    ensures index == |Reduce(Current(input))| && out == Echo(input) && index <= SIZE && |instr| == SIZE
  {
    assert |instr[..index]| == index;
  }

  // ---- the interrupt server ----

  /** The characters of one interrupt; a pass without received data reads nothing. */
  function Received(events: seq<Option<char>>): string {
    if events == [] then []
    else (if events[0].Some? then [events[0].value] else []) + Received(events[1..])
  }

  function AllReceived(interrupts: seq<seq<Option<char>>>): string {
    if interrupts == [] then [] else Received(interrupts[0]) + AllReceived(interrupts[1..])
  }

  // What an interrupt receives, by laws that leave no other meaning: characters in order, and
  // passes without data anywhere.

  function Somes(s: string): seq<Option<char>> {
    seq(|s|, i requires 0 <= i < |s| => Some(s[i]))
  }

  function Got(pass: Option<char>): string {
    if pass.Some? then [pass.value] else []
  }

  lemma ReceivedFirst(events: seq<Option<char>>)
    requires events != []
    ensures Received(events) == Got(events[0]) + Received(events[1..])
  {
  }

  lemma NothingReceived()
    ensures Received([]) == []
  {
  }

  lemma {:induction false} ReceivedConcat(a: seq<Option<char>>, b: seq<Option<char>>)
    ensures Received(a + b) == Received(a) + Received(b)
    decreases |a|
  {
    hide Received, Got;
    if a == [] {
      NothingReceived();
      assert a + b == b;
    } else {
      ReceivedFirst(a);
      ReceivedFirst(a + b);
      assert (a + b)[1..] == a[1..] + b;
      ReceivedConcat(a[1..], b);
    }
  }

  lemma {:induction false} ReceivedSomes(s: string)
    ensures Received(Somes(s)) == s
  {
    if s != [] {
      assert Somes(s)[0] == Some(s[0]) && Somes(s)[1..] == Somes(s[1..]);
      ReceivedSomes(s[1..]);
    }
  }

  lemma EmptyPass(a: seq<Option<char>>, b: seq<Option<char>>)
    ensures Received(a + [None] + b) == Received(a + b)
  {
    ReceivedConcat(a + [None], b);
    ReceivedConcat(a, [None]);
    ReceivedConcat(a, b);
    assert Received([None]) == [];
  }

  lemma {:induction false} AllReceivedConcat(a: seq<seq<Option<char>>>, b: seq<seq<Option<char>>>)
    ensures AllReceived(a + b) == AllReceived(a) + AllReceived(b)
    decreases |a|
  {
    hide Received;
    if a == [] {
      assert a + b == b;
    } else {
      assert (a + b)[1..] == a[1..] + b;
      AllReceivedConcat(a[1..], b);
    }
  }

  lemma OneInterrupt(x: seq<Option<char>>)
    ensures AllReceived([x]) == Received(x)
  {
    hide Received;
    assert AllReceived([]) == [];
  }

  lemma AllReceivedFirst(interrupts: seq<seq<Option<char>>>)
    requires interrupts != []
    ensures AllReceived(interrupts) == Received(interrupts[0]) + AllReceived(interrupts[1..])
  {
  }

  lemma AllReceivedNone()
    ensures AllReceived([]) == []
  {
  }

  /** Cutting an interrupt in two anywhere receives the same. */
  lemma CutAnywhere(before: seq<seq<Option<char>>>, x: seq<Option<char>>, y: seq<Option<char>>,
                    after: seq<seq<Option<char>>>)
    ensures AllReceived(before + [x + y] + after) == AllReceived(before + [x, y] + after)
  {
    hide Received, AllReceived;
    AllReceivedConcat(before + [x + y], after);
    AllReceivedConcat(before, [x + y]);
    AllReceivedConcat(before + [x, y], after);
    AllReceivedConcat(before, [x, y]);
    assert [x, y] == [x] + [y];
    AllReceivedConcat([x], [y]);
    OneInterrupt(x);
    OneInterrupt(y);
    OneInterrupt(x + y);
    ReceivedConcat(x, y);
  }

  /** All passes of all interrupts, one after the other. */
  function Passes(interrupts: seq<seq<Option<char>>>): seq<Option<char>> {
    if interrupts == [] then [] else interrupts[0] + Passes(interrupts[1..])
  }

  lemma {:induction false} AllReceivedPasses(interrupts: seq<seq<Option<char>>>)
    ensures AllReceived(interrupts) == Received(Passes(interrupts))
  {
    hide Received;
    if interrupts == [] {
      NothingReceived();
    } else {
      AllReceivedPasses(interrupts[1..]);
      ReceivedConcat(interrupts[0], Passes(interrupts[1..]));
    }
  }

  /** Character i of the stream arrives in pass at[i], in order, and every other pass from `from` on is empty. */
  ghost predicate Spread(passes: seq<Option<char>>, from: nat, stream: string, at: seq<nat>) {
    && |at| == |stream|
    && (forall i :: 0 <= i < |at| ==> from <= at[i] < |passes| && passes[at[i]] == Some(stream[i]))
    && (forall i, j :: 0 <= i < j < |at| ==> at[i] < at[j])
    && (forall k :: from <= k < |passes| && passes[k].Some? ==> exists i :: 0 <= i < |at| && at[i] == k)
  }

  lemma SpreadSkip(passes: seq<Option<char>>, from: nat, stream: string, at: seq<nat>)
    requires Spread(passes, from, stream, at) && from < |passes| && passes[from] == None
    ensures Spread(passes, from + 1, stream, at)
  {
  }

  lemma FirstIsLeast(at: seq<nat>, i: nat)
    requires i < |at| && forall j, k :: 0 <= j < k < |at| ==> at[j] < at[k]
    ensures i > 0 ==> at[0] < at[i]
  {
  }

  lemma SpreadEmpty(passes: seq<Option<char>>, stream: string, at: seq<nat>)
    requires Spread(passes, |passes|, stream, at)
    ensures stream == []
  {
    hide Spread;
    if at != [] {
      FirstInRange(passes, |passes|, stream, at);
      assert false;
    }
    SpreadLengths(passes, stream, at);
  }

  lemma SpreadLengths(passes: seq<Option<char>>, stream: string, at: seq<nat>)
    requires Spread(passes, |passes|, stream, at)
    ensures |at| == |stream|
  {
  }

  lemma FirstInRange(passes: seq<Option<char>>, from: nat, stream: string, at: seq<nat>)
    requires Spread(passes, from, stream, at) && at != []
    ensures from <= at[0] < |passes|
  {
  }

  lemma SpreadTake(passes: seq<Option<char>>, from: nat, stream: string, at: seq<nat>)
    requires Spread(passes, from, stream, at) && from < |passes| && passes[from].Some?
    ensures stream != [] && passes[from] == Some(stream[0])
    ensures Spread(passes, from + 1, stream[1..], at[1..])
  {
    var i :| 0 <= i < |at| && at[i] == from;
    FirstIsLeast(at, i);
    forall k | from + 1 <= k < |passes| && passes[k].Some? ensures exists j :: 0 <= j < |at[1..]| && at[1..][j] == k {
      var j :| 0 <= j < |at| && at[j] == k;
      assert j > 0 && at[1..][j - 1] == k;
    }
  }

  lemma {:induction false} SpreadReceived(passes: seq<Option<char>>, from: nat, stream: string, at: seq<nat>)
    requires from <= |passes| && Spread(passes, from, stream, at)
    ensures Received(passes[from..]) == stream
    decreases |passes| - from
  {
    if from == |passes| {
      SpreadEmpty(passes, stream, at);
    } else {
      assert passes[from..][1..] == passes[from + 1..];
      if passes[from].Some? {
        SpreadTake(passes, from, stream, at);
        hide Spread;
        SpreadReceived(passes, from + 1, stream[1..], at[1..]);
      } else {
        SpreadSkip(passes, from, stream, at);
        hide Spread;
        SpreadReceived(passes, from + 1, stream, at);
      }
    }
  }

  class Uart {
    const instr: array<char>
    var rxBuf: nat                 // index that persists between interrupts
    var out: seq<string>
    ghost var input: string        // everything received so far

    ghost predicate Valid()
      reads this, instr
    {
      Edits(instr[..], rxBuf, out, input)
    }

    constructor ()
      ensures Valid() && fresh(instr) && input == []
    {
      EchoEmpty();
      instr := new char[SIZE];
      rxBuf, out, input := 0, [], [];
    }

    /** The interrupt handler: drains whatever is pending. */
    method Isr(events: seq<Option<char>>)
      requires Valid() && Fits(input + Received(events))
      modifies this, instr
      ensures Valid() && input == old(input) + Received(events)
    {
      var n := 0;
      assert input + Received(events[0..]) == old(input) + Received(events) by { assert events[0..] == events; }
      hide Fits, Edits;
      while n < |events|
        invariant 0 <= n <= |events|
        invariant Valid()
        invariant input + Received(events[n..]) == old(input) + Received(events)
      {
        assert events[n..][1..] == events[n + 1..];
        if events[n].Some? {
          assert input + Received(events[n..]) == (input + [events[n].value]) + Received(events[n + 1..]);
          ReceiveFits(input, events[n].value, Received(events[n + 1..]));
          Receive(events[n].value);
        } else {
          assert Received(events[n..]) == Received(events[n + 1..]);
        }
        n := n + 1;
      }
      assert input + Received(events[n..]) == input;
    }

    /** One character read from the FIFO. */
    method Receive(c: char)
      requires Valid() && (c != DEL ==> |Reduce(Current(input))| < SIZE)
      modifies this, instr
      ensures Valid() && input == old(input) + [c]
    {
      ghost var before := instr[..];
      EditIndex(before, rxBuf, out, input);
      hide Edits, Reduce, Current, Echo;
      if c == CR {
        instr[rxBuf] := '\0';
        EditReturn(before, instr[..], rxBuf, out, input);
        out := out + ["Recieved : " + CString(instr[..]) + "\r\n"];
        rxBuf := 0;
      } else if c == DEL {
        EditBackspace(before, rxBuf, out, input);
        if rxBuf > 0 { rxBuf := rxBuf - 1; }
      } else {
        instr[rxBuf] := c;
        EditStore(before, instr[..], rxBuf, out, input, c);
        rxBuf := rxBuf + 1;
      }
      input := input + [c];
    }
  }

  lemma ReceiveFits(s: string, c: char, t: string)
    requires Fits((s + [c]) + t)
    ensures Fits(s + [c]) && (c != DEL ==> |Reduce(Current(s))| < SIZE)
  {
    hide Fits;
    FitsPrefix(s + [c], t);
    FitsPrefix(s, [c]);
  }

  /**
   However the input is cut into interrupts, the output is that of the whole input, and so
   the same as the polling server's.
   */
  method Interrupts(interrupts: seq<seq<Option<char>>>) returns (out: seq<string>)
    requires Fits(AllReceived(interrupts))
    ensures out == Echo(AllReceived(interrupts))
  {
    hide Fits, Reduce, Current, Echo, Received, AllReceived, Edits;
    var uart := new Uart();
    var n := 0;
    assert interrupts[0..] == interrupts;
    assert [] + AllReceived(interrupts) == AllReceived(interrupts);
    while n < |interrupts|
      invariant 0 <= n <= |interrupts|
      invariant uart.Valid() && fresh(uart) && fresh(uart.instr)
      invariant uart.input + AllReceived(interrupts[n..]) == AllReceived(interrupts)
    {
      assert interrupts[n..][1..] == interrupts[n + 1..];
      var s := Received(interrupts[n]);
      AllReceivedFirst(interrupts[n..]);
      assert uart.input + AllReceived(interrupts[n..]) == (uart.input + s) + AllReceived(interrupts[n + 1..]);
      FitsPrefix(uart.input + s, AllReceived(interrupts[n + 1..]));
      uart.Isr(interrupts[n]);
      n := n + 1;
    }
    AllReceivedNone();
    assert interrupts[n..] == [] && uart.input + [] == uart.input;
    EditIndex(uart.instr[..], uart.rxBuf, uart.out, uart.input);
    out := uart.out;
  }

  /**
   For any stream, cut into interrupts anywhere and with empty passes anywhere, the interrupt
   server prints what the polling server does.
   */
  method AnyCut(interrupts: seq<seq<Option<char>>>, ghost stream: string, ghost at: seq<nat>) returns (out: seq<string>)
    requires Spread(Passes(interrupts), 0, stream, at) && Fits(stream)
    ensures out == Echo(stream)
  {
    hide Spread, Fits, Echo, Received, AllReceived, Passes;
    AllReceivedPasses(interrupts);
    SpreadReceived(Passes(interrupts), 0, stream, at);
    assert Passes(interrupts)[0..] == Passes(interrupts);
    out := Interrupts(interrupts);
  }
}
