/** The stream helpers of the agent bridge (docker/bridge.js:66-81, 171-191): cutting a tool
    result into numbered chunks, and reassembling lines from arbitrary chunks of input. */
module Bridge {
  import opened WorkflowModel

  function Concat(parts: seq<string>): string {
    if parts == [] then "" else Concat(parts[..|parts| - 1]) + parts[|parts| - 1]
  }

  // --- emitToolResultChunks -----------------------------------------------------------------

  const CHUNK_SIZE: nat := 64 * 1024

  datatype Chunk = Chunk(chunkIndex: nat, chunkTotal: nat, content: string)

  function Contents(chunks: seq<Chunk>): (r: seq<string>)
    ensures |r| == |chunks|
  {
    seq(|chunks|, i requires 0 <= i < |chunks| => chunks[i].content)
  }

  /** text.slice(start, end): the end is clamped to the length. */
  function Slice(text: string, start: nat, end: nat): string
    requires start <= |text| && start <= end
  {
    text[start..if end <= |text| then end else |text|]
  }

  lemma ContentsSnoc(events: seq<Chunk>, event: Chunk)
    ensures Concat(Contents(events + [event])) == Concat(Contents(events)) + event.content
  {
    assert Contents(events + [event])[..|events|] == Contents(events);
  }

  /** Math.max(1, Math.ceil(text.length / CHUNK_SIZE)) */
  function Total(length: nat): (n: nat)
    ensures n >= 1 && (n - 1) * CHUNK_SIZE <= length <= n * CHUNK_SIZE && (n > 1 ==> (n - 1) * CHUNK_SIZE < length)
  {
    var ceiling := (length + CHUNK_SIZE - 1) / CHUNK_SIZE;
    if ceiling > 1 then ceiling else 1
  }

  /** The i-th of total chunks is well formed: numbered from 1, full unless it is the last, and
      empty only if it is the only one. */
  ghost predicate WellFormed(event: Chunk, i: nat, total: nat) {
    && event.chunkIndex == i + 1 && event.chunkTotal == total
    && |event.content| <= CHUNK_SIZE
    && (i < total - 1 ==> |event.content| == CHUNK_SIZE)
    && (event.content == "" ==> total == 1)
  }

  /** The chunks are numbered 1 to their number, as few as possible, and together they are the
      text. */
  method EmitToolResultChunks(content: Option<string>) returns (events: seq<Chunk>)
    ensures events != []
    ensures forall i :: 0 <= i < |events| ==> WellFormed(events[i], i, |events|)
    ensures Concat(Contents(events)) == if content.Some? then content.value else ""
  {
    hide Concat, Contents;
    var text := if content.Some? then content.value else "";
    var total := Total(|text|);
    events := [];
    EmptyConcat();
    for i := 0 to total
      invariant |events| == i
      invariant forall k :: 0 <= k < i ==> WellFormed(events[k], k, total)
      invariant i < total ==> Concat(Contents(events)) == text[..i * CHUNK_SIZE]
      invariant i == total ==> Concat(Contents(events)) == text
    {
      var start := i * CHUNK_SIZE;
      var end := start + CHUNK_SIZE;
      var event := Chunk(i + 1, total, Slice(text, start, end));
      ContentsSnoc(events, event);
      events := events + [event];
      if i + 1 < total {
        assert text[..start] + text[start..end] == text[..end];
      } else {
        assert text[..start] + text[start..|text|] == text;
      }
    }
  }

  lemma EmptyConcat()
    ensures Concat(Contents([])) == ""
  {
  }

  // --- lines --------------------------------------------------------------------------------

  /** s.split("\n") */
  function Split(s: string): (lines: seq<string>)
    ensures lines != []
  {
    if s == "" then [""] else
    var rest := Split(s[..|s| - 1]);
    if s[|s| - 1] == '\n' then rest + [""]
    else rest[..|rest| - 1] + [rest[|rest| - 1] + [s[|s| - 1]]]
  }

  function Join(lines: seq<string>): string
    requires lines != []
  {
    if |lines| == 1 then lines[0] else Join(lines[..|lines| - 1]) + "\n" + lines[|lines| - 1]
  }

  ghost predicate NoNewlines(lines: seq<string>) {
    forall i :: 0 <= i < |lines| ==> '\n' !in lines[i]
  }

  function Grown(lines: seq<string>, c: char): seq<string>
    requires lines != []
  {
    if c == '\n' then lines + [""] else lines[..|lines| - 1] + [lines[|lines| - 1] + [c]]
  }

  lemma SplitSnoc(s: string, c: char)
    ensures Split(s + [c]) == Grown(Split(s), c)
  {
    assert (s + [c])[..|s|] == s;
  }

  lemma JoinGrown(lines: seq<string>, c: char)
    requires lines != []
    ensures Join(Grown(lines, c)) == Join(lines) + [c]
  {
    var g := Grown(lines, c);
    assert g[..|g| - 1] == if c == '\n' then lines else lines[..|lines| - 1];
  }

  lemma {:induction false} SplitJoins(s: string)
    ensures NoNewlines(Split(s)) && Join(Split(s)) == s
  {
    if s != "" {
      var init, c := s[..|s| - 1], s[|s| - 1];
      SplitJoins(init);
      JoinGrown(Split(init), c);
      assert s == init + [c];
    }
  }

  lemma {:induction false} JoinSplits(lines: seq<string>)
    requires lines != [] && NoNewlines(lines)
    ensures Split(Join(lines)) == lines
    decreases |lines|, |lines[|lines| - 1]|
  {
    hide Join;
    if lines == [""] {
      assert Join(lines) == "" by { JoinOne(""); }
    } else {
      var (shorter, c) := Shrunk(lines);
      JoinSplits(shorter);
      JoinGrown(shorter, c);
      SplitSnoc(Join(shorter), c);
    }
  }

  lemma JoinOne(s: string)
    ensures Join([s]) == s
  {
  }

  /** Grown, undone. */
  function Shrunk(lines: seq<string>): (r: (seq<string>, char))
    requires lines != [] && NoNewlines(lines) && lines != [""]
    ensures r.0 != [] && NoNewlines(r.0) && Grown(r.0, r.1) == lines
    ensures |r.0| < |lines| || (|r.0| == |lines| && |r.0[|r.0| - 1]| < |lines[|lines| - 1]|)
  {
    var init, last := lines[..|lines| - 1], lines[|lines| - 1];
    if last == "" then (init, '\n')
    else
      assert last[|last| - 1] in last && last == last[..|last| - 1] + [last[|last| - 1]];
      (init + [last[..|last| - 1]], last[|last| - 1])
  }

  /** Splitting is the one way to write the text as newline-free lines joined by newlines. */
  lemma SplitExactly(s: string, lines: seq<string>)
    requires lines != []
    ensures lines == Split(s) <==> NoNewlines(lines) && Join(lines) == s
  {
    SplitJoins(s);
    if NoNewlines(lines) {
      JoinSplits(lines);
    }
  }

  lemma GrownLater(front: seq<string>, lines: seq<string>, c: char)
    requires lines != []
    ensures Grown(front + lines, c) == front + Grown(lines, c)
  {
  }

  /** Later input only touches the last, unfinished line. */
  lemma {:induction false} SplitConcat(a: string, b: string)
    ensures var l := Split(a); Split(a + b) == l[..|l| - 1] + Split(l[|l| - 1] + b)
    decreases |b|
  {
    var l := Split(a);
    if b == "" {
      assert a + b == a && l[|l| - 1] + b == l[|l| - 1];
      SplitJoins(a);
      assert Join([l[|l| - 1]]) == l[|l| - 1];
      JoinSplits([l[|l| - 1]]);
    } else {
      var init := b[..|b| - 1];
      SplitConcat(a, init);
      var front, last, c := l[..|l| - 1], l[|l| - 1], b[|b| - 1];
      assert a + b == (a + init) + [c] && last + b == (last + init) + [c];
      hide Split;
      SplitSnoc(a + init, c);
      SplitSnoc(last + init, c);
      GrownLater(front, Split(last + init), c);
    }
  }

  /** The characters String.prototype.trim removes: white space and line terminators. */
  predicate Space(c: char) {
    || c == '\t' || c == '\n' || c == 0xB as char || c == 0xC as char || c == '\r' || c == ' '
    || c == 0xA0 as char || c == 0x1680 as char || 0x2000 as char <= c <= 0x200A as char
    || c == 0x2028 as char || c == 0x2029 as char || c == 0x202F as char || c == 0x205F as char
    || c == 0x3000 as char || c == 0xFEFF as char
  }

  function TrimStart(s: string): string {
    if s != "" && Space(s[0]) then TrimStart(s[1..]) else s
  }

  function TrimEnd(s: string): string {
    if s != "" && Space(s[|s| - 1]) then TrimEnd(s[..|s| - 1]) else s
  }

  function Trim(s: string): string {
    TrimEnd(TrimStart(s))
  }

  /** The trimmed lines that have something in them. */
  function Kept(lines: seq<string>): seq<string> {
    if lines == [] then [] else
    var trimmed := Trim(lines[|lines| - 1]);
    Kept(lines[..|lines| - 1]) + if trimmed != "" then [trimmed] else []
  }

  lemma {:induction false} KeptConcat(a: seq<string>, b: seq<string>)
    ensures Kept(a + b) == Kept(a) + Kept(b)
    decreases |b|
  {
    if b == [] {
      assert a + b == a;
    } else {
      assert (a + b)[..|a + b| - 1] == a + b[..|b| - 1];
      KeptConcat(a, b[..|b| - 1]);
    }
  }

  /** The lines that have something in them, trimmed, in their order. */
  lemma {:induction false} KeptExactly(lines: seq<string>) returns (at: seq<nat>)
    ensures forall i, j :: 0 <= i < j < |at| ==> at[i] < at[j]
    ensures forall i: nat :: i in at <==> i < |lines| && Trim(lines[i]) != ""
    ensures |Kept(lines)| == |at|
    ensures forall j :: 0 <= j < |at| ==> at[j] < |lines| && Kept(lines)[j] == Trim(lines[at[j]])
  {
    hide Kept, Trim;
    at := [];
    KeptNone();
    if lines != [] {
      var init := lines[..|lines| - 1];
      at := KeptExactly(init);
      KeptSnoc(init, lines[|init|]);
      assert lines == init + [lines[|init|]];
      assert forall i: nat :: i in at <==> i < |init| && Trim(lines[i]) != "";
      if Trim(lines[|init|]) != "" {
        at := at + [|init|];
      }
    }
  }

  lemma KeptNone()
    ensures Kept([]) == []
  {
  }

  lemma KeptSnoc(lines: seq<string>, line: string)
    ensures Kept(lines + [line]) == Kept(lines) + if Trim(line) != "" then [Trim(line)] else []
  {
    hide Trim;
    assert (lines + [line])[..|lines|] == lines;
  }

  /** The closure streamLines leaves behind: its buffer, and the calls of onLine so far. */
  class LineStream {
    var buffer: string
    var called: seq<string>
    ghost var received: string

    /** What the input so far determines: the buffer is its unfinished last line, and every line
        before that has been delivered. */
    ghost predicate Valid()
      reads this
    {
      var lines := Split(received);
      buffer == lines[|lines| - 1] && called == Kept(lines[..|lines| - 1])
    }

    constructor ()
      ensures Valid() && received == ""
    {
      buffer, called, received := "", [], "";
    }

    method OnLines(lines: seq<string>)
      modifies `called
      ensures called == old(called) + Kept(lines)
    {
      for i := 0 to |lines|
        invariant called == old(called) + Kept(lines[..i])
      {
        assert lines[..i + 1][..i] == lines[..i];
        var trimmed := Trim(lines[i]);
        if trimmed != "" {
          called := called + [trimmed];
        }
      }
      assert lines[..|lines|] == lines;
    }

    /** stream.on("data") */
    method OnData(chunk: string)
      requires Valid()
      modifies this
      ensures Valid() && received == old(received) + chunk
    {
      ghost var before := Split(received);
      ghost var done := before[..|before| - 1];
      SplitConcat(received, chunk);
      buffer := buffer + chunk;
      var lines := Split(buffer);
      buffer := lines[|lines| - 1];
      lines := lines[..|lines| - 1];
      OnLines(lines);
      received := received + chunk;
      KeptConcat(done, lines);
      assert Split(received)[..|Split(received)| - 1] == done + lines;
    }

    /** stream.on("end") */
    method OnEnd()
      requires Valid()
      modifies `called
      ensures called == Kept(Split(received))
    {
      var trimmed := Trim(buffer);
      if trimmed != "" {
        called := called + [trimmed];
      }
    }
  }

  /** Whatever way the input is cut into chunks, onLine is called with the trimmed non-empty lines
      of the whole input. */
  method StreamLines(chunks: seq<string>) returns (called: seq<string>)
    ensures called == Kept(Split(Concat(chunks)))
  {
    var stream := new LineStream();
    for i := 0 to |chunks|
      invariant stream.Valid() && stream.received == Concat(chunks[..i])
    {
      assert chunks[..i + 1][..i] == chunks[..i];
      stream.OnData(chunks[i]);
    }
    assert chunks[..|chunks|] == chunks;
    stream.OnEnd();
    called := stream.called;
  }

  /** What is left after trimming has no space at either end, and only spaces were removed. */
  lemma TrimExactly(s: string) returns (i: nat, j: nat)
    ensures i <= j <= |s| && Trim(s) == s[i..j]
    ensures (forall k :: 0 <= k < i || j <= k < |s| ==> Space(s[k]))
    ensures Trim(s) != "" ==> !Space(s[i]) && !Space(s[j - 1])
  {
    i := StartAt(s);
    var t := TrimStart(s);
    j := EndAt(t);
    assert t[..j] == s[i..i + j];
    forall k | i + j <= k < |s| ensures Space(s[k]) {
      assert t[k - i] == s[k];
    }
    j := i + j;
  }

  lemma {:induction false} StartAt(s: string) returns (i: nat)
    ensures i <= |s| && TrimStart(s) == s[i..] && (forall k :: 0 <= k < i ==> Space(s[k])) && (i < |s| ==> !Space(s[i]))
    decreases |s|
  {
    if s != "" && Space(s[0]) {
      i := StartAt(s[1..]);
      i := i + 1;
      assert forall k :: 0 < k < i ==> s[k] == s[1..][k - 1];
    } else {
      i := 0;
    }
  }

  lemma {:induction false} EndAt(s: string) returns (j: nat)
    ensures j <= |s| && TrimEnd(s) == s[..j] && (forall k :: j <= k < |s| ==> Space(s[k])) &&
        (j > 0 ==> !Space(s[j - 1]))
    decreases |s|
  {
    if s != "" && Space(s[|s| - 1]) {
      j := EndAt(s[..|s| - 1]);
    } else {
      j := |s|;
    }
  }
}
