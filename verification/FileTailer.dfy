// Reading a log file by lines, with a byte offset that survives restarts
// (internal/tailer/file_tailer.go). Bytes are modelled as characters.
module FileTailer {
  import opened LogLines
  import opened Seqs

  const MAX_LINE_SIZE: nat := 256 * 1024

  // ---------------------------------------------------------------- lines of a file

  /** Length of the first line of non-empty content, its newline included. */
  function FirstLine(content: string): (n: nat)
    requires content != []
    ensures 0 < n <= |content|
  {
    if content[0] == '\n' || |content| == 1 then 1 else 1 + FirstLine(content[1..])
  }

  /** The raw lines of the content: newlines kept, the last line possibly without one. */
  function Lines(content: string): seq<string>
    decreases |content|
  {
    if content == [] then []
    else [content[..FirstLine(content)]] + Lines(content[FirstLine(content)..])
  }

  function TrimNewline(raw: string): string {
    if raw != [] && raw[|raw| - 1] == '\n' then raw[..|raw| - 1] else raw
  }

  function TrimReturn(line: string): string {
    if line != [] && line[|line| - 1] == '\r' then line[..|line| - 1] else line
  }

  function Shorten(line: string): string {
    if |line| > MAX_LINE_SIZE then line[..MAX_LINE_SIZE] else line
  }

  function TextOf(raw: string): string { Shorten(TrimReturn(TrimNewline(raw))) }

  /** What a raw line becomes: one message, or none when it is blank. */
  function MessageOf(raw: string): seq<string> { if TextOf(raw) == "" then [] else [TextOf(raw)] }

  function Messages(lines: seq<string>): seq<string> {
    if lines == [] then [] else MessageOf(lines[0]) + Messages(lines[1..])
  }

  /** What a read from `pos` to the end of the file finds; nothing when `pos` lies beyond it. */
  function Rest(content: string, pos: nat): string {
    if pos <= |content| then content[pos..] else []
  }

  lemma {:induction false} LinesRejoin(content: string)
    ensures Flatten(Lines(content)) == content
    decreases |content|
  {
    if content != [] {
      var n := FirstLine(content);
      LinesRejoin(content[n..]);
      assert content == content[..n] + content[n..];
      assert Lines(content)[1..] == Lines(content[n..]);
    }
  }

  lemma SliceSplit(content: string, first: nat, more: nat, head: string)
    requires first <= |content| && more <= |content[first..]| && head == content[..first] + content[first..][..more]
    ensures |head| <= |content| && head == content[..|head|]
    ensures content[first..][more..] == content[|head|..]
  {
  }

  /** The first n lines and the bytes they take. */
  function Head(content: string, n: nat): seq<string>
    requires n <= |Lines(content)|
  {
    Lines(content)[..n]
  }

  function Taken(content: string, n: nat): nat
    requires n <= |Lines(content)|
  {
    |Flatten(Head(content, n))|
  }

  lemma HeadStep(content: string, n: nat)
    requires 0 < n <= |Lines(content)|
    ensures content != [] && n - 1 <= |Lines(content[FirstLine(content)..])|
    ensures Head(content, n) == [content[..FirstLine(content)]] + Head(content[FirstLine(content)..], n - 1)
    ensures Flatten(Head(content, n))
            == content[..FirstLine(content)] + Flatten(Head(content[FirstLine(content)..], n - 1))
  {
    HeadCons(content[..FirstLine(content)], Lines(content[FirstLine(content)..]), n - 1);
  }

  lemma HeadCons(first: string, rest: seq<string>, n: nat)
    requires n <= |rest|
    ensures ([first] + rest)[..n + 1] == [first] + rest[..n]
    ensures Flatten(([first] + rest)[..n + 1]) == first + Flatten(rest[..n])
  {
    assert ([first] + rest)[..n + 1][1..] == rest[..n];
  }

  lemma LinesTail(content: string, n: nat)
    requires 0 < n <= |Lines(content)|
    ensures content != [] && n - 1 <= |Lines(content[FirstLine(content)..])|
    ensures Lines(content)[n..] == Lines(content[FirstLine(content)..])[n - 1..]
  {
    assert Lines(content) == [content[..FirstLine(content)]] + Lines(content[FirstLine(content)..]);
  }

  /** Splitting after the first n lines splits the lines there. */
  lemma {:induction false} LinesFrom(content: string, n: nat)
    requires n <= |Lines(content)|
    ensures Taken(content, n) <= |content|
    ensures Flatten(Head(content, n)) == content[..Taken(content, n)]
    ensures Lines(content[Taken(content, n)..]) == Lines(content)[n..]
    decreases n
  {
    if n == 0 {
      assert Head(content, 0) == [] && content[0..] == content;
    } else {
      var first := FirstLine(content);
      var tail := content[first..];
      HeadStep(content, n);
      LinesTail(content, n);
      LinesFrom(tail, n - 1);
      SliceSplit(content, first, Taken(tail, n - 1), Flatten(Head(content, n)));
    }
  }

  lemma {:induction false} MessagesConcat(a: seq<string>, b: seq<string>)
    ensures Messages(a + b) == Messages(a) + Messages(b)
    decreases |a|
  {
    if a == [] {
      assert a + b == b;
    } else {
      assert (a + b)[1..] == a[1..] + b;
      MessagesConcat(a[1..], b);
    }
  }

  lemma MessagesSplit(lines: seq<string>, n: nat)
    requires n <= |lines|
    ensures Messages(lines[..n]) + Messages(lines[n..]) == Messages(lines)
  {
    var front, back := lines[..n], lines[n..];
    assert lines == front + back;
    MessagesConcat(front, back);
  }

  /** Resume exactly once: stopping after any number of lines and starting again at the offset
      reached yields, together, the messages of one uninterrupted read. */
  lemma ResumeExactlyOnce(content: string, n: nat)
    requires n <= |Lines(content)|
    ensures Taken(content, n) <= |content|
    ensures Messages(Head(content, n)) + Messages(Lines(content[Taken(content, n)..])) == Messages(Lines(content))
  {
    LinesFrom(content, n);
    MessagesSplit(Lines(content), n);
  }

  // ---------------------------------------------------------------- growth, restarts, truncation

  /** A file and the tailers reading it, one after the other. `reader` is the read position of the one
      that runs. `consumed` and `emitted` record everything ever read and sent; reading last began
      from scratch, at `origin`, after the first `mark` of the consumed lines. `stale` tells that the
      file was replaced since and what was read is no longer in it. */
  datatype State = State(
    content: string, lastOffset: nat, reader: Option<nat>,
    origin: nat, mark: nat, consumed: seq<string>, emitted: seq<string>, stale: bool)

  datatype Step =
    | Append(bytes: string)
    | Replace(content: string)          // copytruncate: the file starts over with other content
    | Open(seekOk: bool)                // a new tailer, from the offset the last one reported
    | Read(lines: nat, cancelled: bool)
    | CheckTruncation
    | Stop

  function Start(content: string, offset: nat): State {
    State(content, offset, None, offset, 0, [], [], false)
  }

  /** Nothing after the last newline. */
  predicate Whole(content: string) { content == [] || content[|content| - 1] == '\n' }

  /** A read that is not cancelled consumes everything; one that is has not consumed an unterminated
      line, after which it would have met the end of the file. */
  predicate Readable(rest: string, n: nat, cancelled: bool) {
    n <= |Lines(rest)| && if cancelled then n < |Lines(rest)| || Whole(rest) else n == |Lines(rest)|
  }

  predicate Enabled(s: State, e: Step) {
    match e
    case Open(_) => s.reader.None?
    case Read(n, cancelled) => s.reader.Some? && Readable(Rest(s.content, s.reader.value), n, cancelled)
    case CheckTruncation => s.reader.Some?
    case _ => true
  }

  function FromScratch(s: State): State {
    s.(lastOffset := 0, reader := Some(0), origin := 0, mark := |s.consumed|, stale := false)
  }

  function Apply(s: State, e: Step): State
    requires Enabled(s, e)
  {
    match e
    case Append(bytes) => s.(content := s.content + bytes)
    case Replace(content) => s.(content := content, stale := s.stale || s.lastOffset != s.origin)
    case Open(seekOk) =>
      if s.lastOffset > 0 && !seekOk then FromScratch(s) else s.(reader := Some(s.lastOffset))
    case Read(n, cancelled) =>
      var lines := Head(Rest(s.content, s.reader.value), n);
      var read := Taken(Rest(s.content, s.reader.value), n);
      s.(lastOffset := s.lastOffset + read, reader := if cancelled then None else Some(s.reader.value + read),
         consumed := s.consumed + lines, emitted := s.emitted + Messages(lines))
    case CheckTruncation => if |s.content| < s.reader.value then FromScratch(s) else s
    case Stop => s.(reader := None)
  }

  predicate Run(s: State, run: seq<Step>)
    decreases |run|
  {
    run != [] ==> Enabled(s, run[0]) && Run(Apply(s, run[0]), run[1..])
  }

  function After(s: State, run: seq<Step>): State
    requires Run(s, run)
    decreases |run|
  {
    if run == [] then s else After(Apply(s, run[0]), run[1..])
  }

  /** The lines consumed since reading last began from scratch. */
  function Latest(s: State): seq<string> {
    if s.mark <= |s.consumed| then s.consumed[s.mark..] else []
  }

  /** What was ever sent is the messages of what was ever consumed. */
  ghost predicate Sent(s: State) { s.emitted == Messages(s.consumed) }

  /** The latest lines are exactly the bytes between where reading began and the offset. */
  ghost predicate Placed(s: State) {
    && s.mark <= |s.consumed| && s.origin <= s.lastOffset
    && (s.reader.Some? ==> s.reader.value == s.lastOffset)
    && s.lastOffset == s.origin + |Flatten(Latest(s))|
    && (!s.stale ==> Covers(s.content, s.origin, s.lastOffset, Latest(s)))
  }

  ghost predicate ReadOnce(s: State) { Sent(s) && Placed(s) }

  lemma {:induction false} FlattenConcat(a: seq<string>, b: seq<string>)
    ensures Flatten(a + b) == Flatten(a) + Flatten(b)
  {
    if a == [] {
      assert a + b == b;
    } else {
      assert (a + b)[1..] == a[1..] + b;
      FlattenConcat(a[1..], b);
    }
  }

  lemma ReadExtends(content: string, origin: nat, offset: nat, n: nat)
    requires origin <= offset <= |content| && n <= |Lines(content[offset..])|
    ensures Taken(content[offset..], n) <= |content| - offset
    ensures content[origin..offset] + Flatten(Head(content[offset..], n))
            == content[origin..offset + Taken(content[offset..], n)]
  {
    LinesFrom(content[offset..], n);
  }

  lemma NothingBeyond(content: string, pos: nat, n: nat)
    requires pos > |content| && n <= |Lines(Rest(content, pos))|
    ensures n == 0 && Head(Rest(content, pos), n) == [] && Taken(Rest(content, pos), n) == 0
  {
  }

  /** The lines `latest` are what the content holds between origin and offset, as far as it reaches. */
  ghost predicate Covers(content: string, origin: nat, offset: nat, latest: seq<string>) {
    origin <= offset && if offset <= |content| then Flatten(latest) == content[origin..offset] else offset == origin
  }

  lemma ReadCovers(content: string, origin: nat, offset: nat, latest: seq<string>, n: nat)
    requires n <= |Lines(Rest(content, offset))| && origin <= offset
    ensures var head := Head(Rest(content, offset), n); var offset' := offset + Taken(Rest(content, offset), n);
            && |Flatten(latest + head)| == |Flatten(latest)| + (offset' - offset)
            && (Covers(content, origin, offset, latest) ==> Covers(content, origin, offset', latest + head))
  {
    FlattenConcat(latest, Head(Rest(content, offset), n));
    if offset <= |content| {
      ReadExtends(content, origin, offset, n);
    } else {
      NothingBeyond(content, offset, n);
    }
  }

  lemma ReadReadsOnce(s: State, e: Step)
    requires ReadOnce(s) && e.Read? && Enabled(s, e)
    ensures ReadOnce(Apply(s, e))
  {
    ReadAdds(s, e);
    SendsMore(s.consumed, s.emitted, Head(Rest(s.content, s.lastOffset), e.lines));
    ReadPlaces(s, e);
  }

  lemma ReadPlaces(s: State, e: Step)
    requires Placed(s) && e.Read? && Enabled(s, e)
    ensures Placed(Apply(s, e))
  {
    ReadAdds(s, e);
    ReadCovers(s.content, s.origin, s.lastOffset, Latest(s), e.lines);
  }

  lemma SendsMore(lines: seq<string>, sent: seq<string>, more: seq<string>)
    requires sent == Messages(lines)
    ensures sent + Messages(more) == Messages(lines + more)
  {
    MessagesConcat(lines, more);
  }

  lemma ReadAdds(s: State, e: Step)
    requires s.reader == Some(s.lastOffset) && s.mark <= |s.consumed| && e.Read? && Enabled(s, e)
    ensures var s', head := Apply(s, e), Head(Rest(s.content, s.lastOffset), e.lines);
            && s'.consumed == s.consumed + head && s'.emitted == s.emitted + Messages(head)
            && Latest(s') == Latest(s) + head
            && s' == s.(lastOffset := s.lastOffset + Taken(Rest(s.content, s.lastOffset), e.lines),
                        reader := s'.reader, consumed := s'.consumed, emitted := s'.emitted)
            && (s'.reader.Some? ==> s'.reader.value == s'.lastOffset)
  {
    AppendAfter(s.consumed, s.mark, Head(Rest(s.content, s.lastOffset), e.lines));
  }

  lemma AppendReadsOnce(s: State, bytes: string)
    requires ReadOnce(s)
    ensures ReadOnce(Apply(s, Append(bytes)))
  {
    if s.lastOffset <= |s.content| {
      assert (s.content + bytes)[s.origin..s.lastOffset] == s.content[s.origin..s.lastOffset];
    } else if s.lastOffset == s.origin {
      assert |Flatten(Latest(s))| == 0 && Flatten(Latest(s)) == [];
    }
  }

  lemma ReplaceReadsOnce(s: State, content: string)
    requires ReadOnce(s)
    ensures ReadOnce(Apply(s, Replace(content)))
  {
    if s.lastOffset == s.origin { assert |Flatten(Latest(s))| == 0 && Flatten(Latest(s)) == []; }
  }

  lemma FromScratchReadsOnce(s: State)
    requires ReadOnce(s)
    ensures ReadOnce(FromScratch(s))
  {
    assert Latest(FromScratch(s)) == [];
  }

  lemma StepReadsOnce(s: State, e: Step)
    requires ReadOnce(s) && Enabled(s, e)
    ensures ReadOnce(Apply(s, e))
  {
    match e
    case Append(bytes) => AppendReadsOnce(s, bytes);
    case Replace(content) => ReplaceReadsOnce(s, content);
    case Read(_, _) => ReadReadsOnce(s, e);
    case Open(_) => FromScratchReadsOnce(s);
    case CheckTruncation => FromScratchReadsOnce(s);
    case Stop =>
  }

  lemma {:induction false} RunReadsOnce(s: State, run: seq<Step>)
    requires ReadOnce(s) && Run(s, run)
    ensures ReadOnce(After(s, run))
    decreases |run|
  {
    if run != [] {
      StepReadsOnce(s, run[0]);
      RunReadsOnce(Apply(s, run[0]), run[1..]);
    }
  }

  /** Over any run of appends, replacements, reads, cancellations and restarts: what was ever emitted
      is the messages of what was ever consumed, and the lines consumed since reading last began from
      scratch are the file's bytes up to the offset, each byte once, unless the file was replaced
      unnoticed. */
  lemma EveryByteOnce(content: string, offset: nat, run: seq<Step>)
    requires Run(Start(content, offset), run)
    ensures var s := After(Start(content, offset), run);
            && s.emitted == Messages(s.consumed)
            && (!s.stale && s.lastOffset <= |s.content| ==>
                  s.origin <= s.lastOffset && Flatten(Latest(s)) == s.content[s.origin..s.lastOffset])
  {
    RunReadsOnce(Start(content, offset), run);
  }

  predicate AppendOnly(run: seq<Step>) {
    forall e :: e in run ==> !e.Replace? && (e.Open? ==> e.seekOk)
  }

  /** Nothing was replaced or started over, and the offset lies in the file. */
  ghost predicate Growing(s: State, offset: nat) {
    ReadOnce(s) && !s.stale && s.origin == offset && s.mark == 0 && s.lastOffset <= |s.content|
  }

  lemma StepGrows(s: State, e: Step, offset: nat)
    requires Growing(s, offset) && Enabled(s, e) && !e.Replace? && (e.Open? ==> e.seekOk)
    ensures Growing(Apply(s, e), offset)
  {
    StepReadsOnce(s, e);
    if e.Read? { LinesFrom(Rest(s.content, s.lastOffset), e.lines); }
  }

  lemma {:induction false} RunGrows(s: State, run: seq<Step>, offset: nat)
    requires Growing(s, offset) && Run(s, run) && AppendOnly(run)
    ensures Growing(After(s, run), offset)
    decreases |run|
  {
    if run != [] {
      assert run[0] in run;
      StepGrows(s, run[0], offset);
      RunGrows(Apply(s, run[0]), run[1..], offset);
    }
  }

  /** On an append-only file, across any cancellations and restarts, everything consumed concatenates
      to exactly the bytes from the start offset to the last offset. */
  lemma AppendOnlyExactlyOnce(content: string, offset: nat, run: seq<Step>)
    requires offset <= |content| && Run(Start(content, offset), run) && AppendOnly(run)
    ensures var s := After(Start(content, offset), run);
            && offset <= s.lastOffset <= |s.content|
            && Flatten(s.consumed) == s.content[offset..s.lastOffset]
            && s.emitted == Messages(s.consumed)
  {
    RunGrows(Start(content, offset), run, offset);
    var s := After(Start(content, offset), run);
    assert Latest(s) == s.consumed;
  }

  // ---------------------------------------------------------------- replaced files, failed seeks

  /** The state after reading everything there is, and what that read consumed. */
  function ReadToEnd(s: State): State
    requires s.reader.Some?
  {
    Apply(s, Read(|Lines(Rest(s.content, s.reader.value))|, false))
  }

  function NewLines(s: State, s': State): seq<string>
    requires |s.consumed| <= |s'.consumed|
  {
    s'.consumed[|s.consumed|..]
  }

  lemma ReadToEndReads(s: State)
    requires s.reader.Some?
    ensures var rest := Rest(s.content, s.reader.value);
            && ReadToEnd(s).consumed == s.consumed + Lines(rest)
            && ReadToEnd(s).emitted == s.emitted + Messages(Lines(rest))
            && ReadToEnd(s).lastOffset == s.lastOffset + |rest|
            && Flatten(Lines(rest)) == rest
  {
    var rest := Rest(s.content, s.reader.value);
    LinesRejoin(rest);
    assert Lines(rest)[..|Lines(rest)|] == Lines(rest);
  }

  /** When a running tailer's file is replaced by `c`, the truncation check and the next full read
      consume all of `c` if and only if `c` is shorter than the position reached, or nothing was read
      yet; otherwise they skip exactly its first bytes up to that position. */
  lemma ReplacedReadFullyIff(s: State, c: string)
    requires ReadOnce(s) && s.reader.Some?
    ensures var pos, s' := s.reader.value, ReadToEnd(Apply(Apply(s, Replace(c)), CheckTruncation));
            && |s.consumed| <= |s'.consumed|
            && (Flatten(NewLines(s, s')) == c <==> |c| < pos || pos == 0)
            && (pos <= |c| ==> Flatten(NewLines(s, s')) == c[pos..])
            && s'.lastOffset == |c|
  {
    var s2 := Apply(Apply(s, Replace(c)), CheckTruncation);
    ReadToEndReads(s2);
    assert NewLines(s, ReadToEnd(s2)) == Lines(Rest(c, s2.reader.value));
  }

  /** After a restart, the bytes from the origin to the end of the file are read exactly once over the
      lifetimes of both tailers if and only if the seek succeeds or is not needed; when it fails, all
      of the file is read, what was read before a second time. */
  lemma RestartedOnceIff(s: State, seekOk: bool)
    requires ReadOnce(s) && s.reader.None? && !s.stale && s.lastOffset <= |s.content|
    ensures var s' := ReadToEnd(Apply(s, Open(seekOk)));
            && s.mark <= |s'.consumed|
            && (Flatten(s'.consumed[s.mark..]) == s.content[s.origin..] <==> seekOk || s.lastOffset == 0)
            && (!seekOk && s.lastOffset > 0 ==>
                  Flatten(s'.consumed[s.mark..]) == s.content[s.origin..s.lastOffset] + s.content)
  {
    RestartReads(s, seekOk);
    ReadTwice(s.content, s.origin, s.lastOffset);
  }

  lemma RestartReads(s: State, seekOk: bool)
    requires ReadOnce(s) && s.reader.None? && !s.stale && s.lastOffset <= |s.content|
    ensures var s' := ReadToEnd(Apply(s, Open(seekOk)));
            && s.mark <= |s'.consumed|
            && Flatten(s'.consumed[s.mark..])
               == s.content[s.origin..s.lastOffset]
                  + (if seekOk || s.lastOffset == 0 then s.content[s.lastOffset..] else s.content)
  {
    var s1 := Apply(s, Open(seekOk));
    var rest := Rest(s.content, s1.reader.value);
    ReadToEndReads(s1);
    AppendAfter(s.consumed, s.mark, Lines(rest));
    FlattenConcat(s.consumed[s.mark..], Lines(rest));
    if !seekOk && s.lastOffset > 0 { assert rest == s.content; }
  }

  lemma AppendAfter(lines: seq<string>, n: nat, more: seq<string>)
    requires n <= |lines|
    ensures (lines + more)[n..] == lines[n..] + more
  {
  }

  lemma ReadTwice(content: string, origin: nat, offset: nat)
    requires origin <= offset <= |content|
    ensures content[origin..offset] + content[offset..] == content[origin..]
    ensures offset > 0 ==> content[origin..offset] + content != content[origin..]
  {
    assert |content[origin..offset] + content| == offset - origin + |content|;
  }

  // ---------------------------------------------------------------- single lines

  lemma OneLine(line: string)
    requires line != [] && FirstLine(line) == |line|
    ensures Lines(line) == [line]
  {
    assert line[..|line|] == line && line[|line|..] == [];
  }

  lemma OneMessage(line: string)
    ensures Messages([line]) == MessageOf(line)
  {
    assert Messages([line][1..]) == [];
  }

  // ---------------------------------------------------------------- complete lines

  predicate Terminated(raw: string) { raw != [] && raw[|raw| - 1] == '\n' }

  /** The lines that end with a newline. */
  function Complete(lines: seq<string>): seq<string> {
    if lines == [] then [] else (if Terminated(lines[0]) then [lines[0]] else []) + Complete(lines[1..])
  }

  lemma {:induction false} FirstLineEnds(content: string)
    requires content != []
    ensures FirstLine(content) < |content| ==> content[FirstLine(content) - 1] == '\n'
    ensures forall i :: 0 <= i < FirstLine(content) - 1 ==> content[i] != '\n'
  {
    if !(content[0] == '\n' || |content| == 1) { FirstLineEnds(content[1..]); }
  }

  /** An unterminated line is blank only when it is a lone carriage return. */
  lemma BlankUnterminated(raw: string)
    requires raw != [] && !Terminated(raw)
    ensures MessageOf(raw) == [] <==> raw == "\r"
  {
    assert raw[|raw| - 1] == '\r' && |raw| == 1 ==> raw == "\r";
  }

  predicate EndsInBlank(content: string) {
    || content == [] || content[|content| - 1] == '\n'
    || content == "\r" || (|content| >= 2 && content[|content| - 2..] == "\n\r")
  }

  /** Reading to the end of the file emits nothing but complete lines if and only if the file is
      empty, ends with a newline, or has no more than a carriage return after its last newline. */
  lemma {:induction false} OnlyCompleteLinesIff(content: string)
    ensures Messages(Lines(content)) == Messages(Complete(Lines(content))) <==> EndsInBlank(content)
    decreases |content|
  {
    if content != [] {
      var n := FirstLine(content);
      var first, rest := content[..n], content[n..];
      FirstLineEnds(content);
      assert Lines(content) == [first] + Lines(rest);
      assert Lines(content)[1..] == Lines(rest);
      if n == |content| {
        assert first == content && Lines(rest) == [];
        OneLineComplete(content);
      } else {
        OnlyCompleteLinesIff(rest);
        AfterFirst(first, Lines(rest));
        EndsAlike(content, n);
      }
    }
  }

  lemma OneLineComplete(content: string)
    requires content != [] && forall i :: 0 <= i < |content| - 1 ==> content[i] != '\n'
    ensures Messages([content]) == Messages(Complete([content])) <==> EndsInBlank(content)
  {
    OneMessage(content);
    assert Complete([content][1..]) == [];
    if Terminated(content) {
      assert Complete([content]) == [content];
    } else {
      BlankUnterminated(content);
      assert Complete([content]) == [];
      assert |content| >= 2 ==> content[|content| - 2..][0] != '\n';
    }
  }

  lemma AfterFirst(first: string, rest: seq<string>)
    requires Terminated(first)
    ensures Messages([first] + rest) == Messages(Complete([first] + rest)) <==> Messages(rest) == Messages(Complete(rest))
  {
    assert ([first] + rest)[1..] == rest && ([first] + Complete(rest))[1..] == Complete(rest);
    var a, b := MessageOf(first) + Messages(rest), MessageOf(first) + Messages(Complete(rest));
    assert Messages([first] + rest) == a && Messages([first] + Complete(rest)) == b;
    assert a[|MessageOf(first)|..] == Messages(rest) && b[|MessageOf(first)|..] == Messages(Complete(rest));
  }

  lemma EndsAlike(content: string, n: nat)
    requires 0 < n < |content| && content[n - 1] == '\n'
    ensures EndsInBlank(content) <==> EndsInBlank(content[n..])
  {
    var rest := content[n..];
    assert content[|content| - 1] == rest[|rest| - 1];
    if |rest| == 1 {
      assert content[|content| - 2..] == ['\n', rest[0]] && rest == [rest[0]];
    } else {
      assert content[|content| - 2..] == rest[|rest| - 2..];
    }
  }

  // ---------------------------------------------------------------- what lines and messages are

  /** Pieces that only end, and all but the last do end, with a newline. */
  ghost predicate SplitAtNewlines(pieces: seq<string>) {
    && (forall i, k :: 0 <= i < |pieces| && 0 <= k < |pieces[i]| - 1 ==> pieces[i][k] != '\n')
    && (forall i :: 0 <= i < |pieces| ==> pieces[i] != "")
    && (forall i :: 0 <= i < |pieces| - 1 ==> pieces[i][|pieces[i]| - 1] == '\n')
  }

  /** The lines of a file are the one way to cut it after its newlines. */
  lemma LinesUnique(content: string, pieces: seq<string>)
    ensures pieces == Lines(content) <==> Flatten(pieces) == content && SplitAtNewlines(pieces)
  {
    LinesRejoin(content);
    LinesSplit(content);
    if SplitAtNewlines(pieces) { LinesOfPieces(pieces); }
  }

  lemma {:induction false} LinesSplit(content: string)
    ensures SplitAtNewlines(Lines(content))
    decreases |content|
  {
    if content != [] {
      var n := FirstLine(content);
      FirstLineEnds(content);
      LinesSplit(content[n..]);
      SplitInFront(content[..n], Lines(content[n..]));
    }
  }

  lemma SplitInFront(first: string, rest: seq<string>)
    requires first != "" && (forall k :: 0 <= k < |first| - 1 ==> first[k] != '\n')
    requires SplitAtNewlines(rest) && (rest != [] ==> first[|first| - 1] == '\n')
    ensures SplitAtNewlines([first] + rest)
  {
    var all := [first] + rest;
    assert forall i :: 0 < i < |all| ==> all[i] == rest[i - 1];
  }

  lemma {:induction false} LinesOfPieces(pieces: seq<string>)
    requires SplitAtNewlines(pieces)
    ensures Lines(Flatten(pieces)) == pieces
  {
    if pieces != [] {
      var first, rest := pieces[0], pieces[1..];
      assert forall i :: 0 <= i < |rest| ==> rest[i] == pieces[i + 1];
      LinesOfPieces(rest);
      NoNewlineInside(first);
      OneLine(first);
      if rest == [] {
        assert Flatten(rest) == [] && first + [] == first && pieces == [first];
      } else {
        LinesJoin(first, Flatten(rest));
      }
    }
  }

  /** What is sent of a line: it loses its newline, one carriage return before that, and whatever
      exceeds 256 KiB; if nothing is left, nothing is sent. */
  lemma MessageExact(body: string, ending: string)
    requires ending in ["\r\n", "\n", "\r", ""]
    requires body != "" && (ending == "\n" || ending == "") ==> body[|body| - 1] != '\r'
    requires body != "" && ending == "" ==> body[|body| - 1] != '\n'
    ensures MessageOf(body + ending)
            == if body == "" then [] else if |body| <= 262144 then [body] else [body[..262144]]
  {
    var raw := body + ending;
    assert body + "" == body;
    if ending == "\r\n" {
      assert TrimNewline(raw) == body + "\r";
      assert TrimReturn(body + "\r") == body;
    } else if ending == "\n" {
      assert TrimNewline(raw) == body;
    } else if ending == "\r" {
      assert raw[|raw| - 1] == '\r' && TrimReturn(raw) == body;
    }
  }

  // ---------------------------------------------------------------- lines read in two parts

  lemma {:induction false} FirstLineOfWhole(a: string, b: string)
    requires a != [] && Whole(a)
    ensures FirstLine(a + b) == FirstLine(a)
  {
    if a[0] != '\n' {
      assert |a| > 1 && (a + b)[1..] == a[1..] + b;
      FirstLineOfWhole(a[1..], b);
    }
  }

  /** After a newline the lines start afresh. */
  lemma {:induction false} LinesJoin(a: string, b: string)
    requires Whole(a)
    ensures Lines(a + b) == Lines(a) + Lines(b)
    decreases |a|
  {
    if a == [] {
      assert a + b == b;
    } else {
      var n := FirstLine(a);
      FirstLineOfWhole(a, b);
      CutBoth(a, b, n);
      assert a[n..] != [] ==> a[n..][|a[n..]| - 1] == a[|a| - 1];
      LinesJoin(a[n..], b);
    }
  }

  lemma CutBoth(a: string, b: string, n: nat)
    requires n <= |a|
    ensures (a + b)[..n] == a[..n] && (a + b)[n..] == a[n..] + b
  {
  }

  lemma FirstIsWhole(content: string)
    requires content != [] && (FirstLine(content) < |content| || Whole(content))
    ensures var line := content[..FirstLine(content)];
            line != [] && Whole(line) && forall i :: 0 <= i < |line| - 1 ==> line[i] != '\n'
  {
    FirstLineEnds(content);
  }

  lemma TailReadable(content: string, n: nat)
    requires content != [] && 0 < n <= |Lines(content)| && (n < |Lines(content)| || Whole(content))
    ensures var tail := content[FirstLine(content)..];
            && (n - 1 < |Lines(tail)| || Whole(tail))
            && (tail == [] ==> Whole(content))
  {
    var tail := content[FirstLine(content)..];
    assert |Lines(content)| == 1 + |Lines(tail)|;
    if tail == [] {
      assert Lines(tail) == [];
    } else {
      assert tail[|tail| - 1] == content[|content| - 1];
    }
  }

  /** Complete lines taken from the front are the lines of the bytes they take. */
  lemma {:induction false} HeadWhole(content: string, n: nat)
    requires n <= |Lines(content)| && (n < |Lines(content)| || Whole(content))
    ensures Whole(Flatten(Head(content, n))) && Lines(Flatten(Head(content, n))) == Head(content, n)
    decreases n
  {
    if n == 0 {
      assert Head(content, 0) == [] && Flatten(Head(content, 0)) == "" && Lines("") == [];
    } else {
      var line, tail := content[..FirstLine(content)], content[FirstLine(content)..];
      HeadStep(content, n);
      TailReadable(content, n);
      FirstIsWhole(content);
      HeadWhole(tail, n - 1);
      LineInFront(line, Flatten(Head(tail, n - 1)));
    }
  }

  lemma WholeJoin(a: string, b: string)
    requires Whole(a) && Whole(b)
    ensures Whole(a + b)
  {
    if b == [] { assert a + b == a; }
  }

  lemma LineInFront(line: string, rest: string)
    requires line != [] && Whole(line) && Whole(rest) && forall i :: 0 <= i < |line| - 1 ==> line[i] != '\n'
    ensures Whole(line + rest) && Lines(line + rest) == [line] + Lines(rest)
  {
    LinesJoin(line, rest);
    OneWholeLine(line);
    WholeJoin(line, rest);
  }

  lemma OneWholeLine(line: string)
    requires line != [] && Whole(line) && forall i :: 0 <= i < |line| - 1 ==> line[i] != '\n'
    ensures Lines(line) == [line]
  {
    NoNewlineInside(line);
    OneLine(line);
  }

  lemma {:induction false} NoNewlineInside(line: string)
    requires line != [] && forall i :: 0 <= i < |line| - 1 ==> line[i] != '\n'
    ensures FirstLine(line) == |line|
  {
    if |line| > 1 {
      assert forall i :: 0 <= i < |line[1..]| - 1 ==> line[1..][i] == line[i + 1];
      NoNewlineInside(line[1..]);
    }
  }

  /** Every read that is not cancelled meets what is empty or ends with a newline. */
  predicate CleanRun(s: State, run: seq<Step>)
    requires Run(s, run)
    decreases |run|
  {
    run != [] ==>
      && (run[0].Read? && !run[0].cancelled ==> Whole(Rest(s.content, s.reader.value)))
      && CleanRun(Apply(s, run[0]), run[1..])
  }

  /** What was consumed is the lines of the file between origin and offset, none of them cut. */
  ghost predicate ByLines(s: State, offset: nat) {
    && Growing(s, offset)
    && Whole(s.content[offset..s.lastOffset]) && s.consumed == Lines(s.content[offset..s.lastOffset])
  }

  lemma StepByLines(s: State, e: Step, offset: nat)
    requires ByLines(s, offset) && Enabled(s, e) && !e.Replace? && (e.Open? ==> e.seekOk)
    requires e.Read? && !e.cancelled ==> Whole(Rest(s.content, s.reader.value))
    ensures ByLines(Apply(s, e), offset)
  {
    StepGrows(s, e, offset);
    if e.Read? {
      ReadAdds(s, e);
      ReadByLines(s.content, offset, s.lastOffset, Rest(s.content, s.lastOffset), e.lines, Apply(s, e).lastOffset);
    } else {
      UnreadByLines(s, e, offset);
    }
  }

  lemma UnreadByLines(s: State, e: Step, offset: nat)
    requires Growing(s, offset) && Enabled(s, e) && !e.Read? && !e.Replace? && (e.Open? ==> e.seekOk)
    ensures var s' := Apply(s, e);
            && s'.consumed == s.consumed && s'.lastOffset == s.lastOffset && s.lastOffset <= |s'.content|
            && s'.content[offset..s.lastOffset] == s.content[offset..s.lastOffset]
  {
    if e.Append? { assert s.content == (s.content + e.bytes)[..|s.content|]; }
  }

  lemma ReadByLines(content: string, origin: nat, offset: nat, rest: string, n: nat, now: nat)
    requires origin <= offset <= |content| && rest == content[offset..] && Whole(content[origin..offset])
    requires n <= |Lines(rest)| && (n < |Lines(rest)| || Whole(rest)) && now == offset + Taken(rest, n)
    ensures now <= |content| && Whole(content[origin..now])
    ensures Lines(content[origin..now]) == Lines(content[origin..offset]) + Head(rest, n)
  {
    HeadWhole(rest, n);
    ReadExtends(content, origin, offset, n);
    JoinWhole(content[origin..offset], Flatten(Head(rest, n)), content[origin..now]);
  }

  lemma JoinWhole(a: string, b: string, whole: string)
    requires Whole(a) && Whole(b) && whole == a + b
    ensures Whole(whole) && Lines(whole) == Lines(a) + Lines(b)
  {
    LinesJoin(a, b);
    WholeJoin(a, b);
  }

  lemma {:induction false} RunByLines(s: State, run: seq<Step>, offset: nat)
    requires ByLines(s, offset) && Run(s, run) && AppendOnly(run) && CleanRun(s, run)
    ensures ByLines(After(s, run), offset)
    decreases |run|
  {
    if run != [] {
      assert run[0] in run;
      StepByLines(s, run[0], offset);
      RunByLines(Apply(s, run[0]), run[1..], offset);
    }
  }

  /** On an append-only file whose reads, unless cancelled, find nothing or a newline at its end, the
      messages emitted, over any number of tailers, are those of one read of the bytes covered. */
  lemma AppendOnlyMessages(content: string, offset: nat, run: seq<Step>)
    requires offset <= |content| && Run(Start(content, offset), run) && AppendOnly(run)
    requires CleanRun(Start(content, offset), run)
    ensures var s := After(Start(content, offset), run);
            && offset <= s.lastOffset <= |s.content|
            && s.emitted == Messages(Lines(s.content[offset..s.lastOffset]))
  {
    assert content[offset..offset] == [];
    RunByLines(Start(content, offset), run, offset);
  }

  /** What follows the last newline. */
  function Tail(content: string): (r: string)
    ensures |r| <= |content| && content[|content| - |r|..] == r && forall i :: 0 <= i < |r| ==> r[i] != '\n'
    ensures Whole(content[..|content| - |r|]) && (r == [] <==> Whole(content))
  {
    if Whole(content) then assert content[..|content|] == content; []
    else
      var front := content[..|content| - 1];
      assert content == front + [content[|content| - 1]];
      assert front[..|front| - |Tail(front)|] == content[..|front| - |Tail(front)|];
      Tail(front) + [content[|content| - 1]]
  }

  /** Cutting a line between p and q makes no difference: q is blank and not a carriage return that
      the cut makes part of the text, or p is a lone carriage return before an over-long run of them. */
  predicate HarmlessCut(p: string, q: string)
    requires p != []
  {
    if TextOf(q) == "" then q == "\n" || p[|p| - 1] != '\r' || |p| > MAX_LINE_SIZE
    else
      var text := TrimReturn(TrimNewline(q));
      p == "\r" && |text| >= MAX_LINE_SIZE && forall i :: 0 <= i < MAX_LINE_SIZE ==> text[i] == '\r'
  }

  /** One piece of a line, without a newline, and one that may end with it. */
  predicate Pieces(p: string, q: string) {
    && p != [] && (forall i :: 0 <= i < |p| ==> p[i] != '\n')
    && q != [] && (forall i :: 0 <= i < |q| - 1 ==> q[i] != '\n')
  }

  lemma TextOfBoth(p: string, q: string)
    requires Pieces(p, q)
    ensures TrimNewline(p) == p && TrimNewline(p + q) == p + TrimNewline(q)
    ensures TrimNewline(q) != [] ==> TrimReturn(p + TrimNewline(q)) == p + TrimReturn(TrimNewline(q))
    ensures TrimNewline(q) == [] <==> q == "\n"
  {
    assert (p + q)[|p + q| - 1] == q[|q| - 1];
    assert (p + q)[..|p + q| - 1] == p + q[..|q| - 1];
    var z := TrimNewline(q);
    if z != [] {
      assert (p + z)[|p + z| - 1] == z[|z| - 1] && (p + z)[..|p + z| - 1] == p + z[..|z| - 1];
    } else {
      assert |q| == 1;
    }
  }

  lemma BlankEnd(p: string)
    requires p != []
    ensures Shorten(TrimReturn(p)) == Shorten(p) <==> p[|p| - 1] != '\r' || |p| > MAX_LINE_SIZE
  {
    if p[|p| - 1] == '\r' && |p| > MAX_LINE_SIZE {
      assert p[..|p| - 1][..MAX_LINE_SIZE] == p[..MAX_LINE_SIZE];
    }
  }

  lemma {:induction false} AllReturns(w: string, n: nat)
    requires n <= |w| && ("\r" + w)[..n] == w[..n]
    ensures forall i :: 0 <= i < n ==> w[i] == '\r'
  {
    if n > 0 {
      assert ("\r" + w)[..n][..n - 1] == ("\r" + w)[..n - 1] && w[..n][..n - 1] == w[..n - 1];
      AllReturns(w, n - 1);
      assert w[n - 1] == w[..n][n - 1] == ("\r" + w)[..n][n - 1] == ("\r" + w)[n - 1];
    }
  }

  lemma ReturnInFront(w: string)
    ensures Shorten("\r" + w) == Shorten(w)
            <==> |w| >= MAX_LINE_SIZE && forall i :: 0 <= i < MAX_LINE_SIZE ==> w[i] == '\r'
  {
    if |w| >= MAX_LINE_SIZE {
      assert |w| == MAX_LINE_SIZE ==> w[..MAX_LINE_SIZE] == w;
      assert Shorten(w) == w[..MAX_LINE_SIZE] && Shorten("\r" + w) == ("\r" + w)[..MAX_LINE_SIZE];
      if Shorten("\r" + w) == Shorten(w) {
        AllReturns(w, MAX_LINE_SIZE);
      }
      if forall i :: 0 <= i < MAX_LINE_SIZE ==> w[i] == '\r' {
        assert ("\r" + w)[..MAX_LINE_SIZE] == w[..MAX_LINE_SIZE];
      }
    } else {
      assert |Shorten("\r" + w)| == |w| + 1;
    }
  }

  /** Exactly when the two pieces give the messages of the whole line. */
  lemma CutHarmlessIff(p: string, q: string)
    requires Pieces(p, q)
    ensures MessageOf(p) + MessageOf(q) == MessageOf(p + q) <==> HarmlessCut(p, q)
  {
    var z := TrimNewline(q);
    TextOfBoth(p, q);
    BlankUnterminated(p);
    if z == [] {
      assert p + z == p && MessageOf(p) + [] == MessageOf(p);
    } else if TrimReturn(z) == [] {
      BlankEnd(p);
      assert p + [] == p && MessageOf(p) + [] == MessageOf(p);
      assert |z| == 1 && q != "\n";
    } else {
      ReturnInFront(TrimReturn(z));
      assert |MessageOf(p + q)| == 1 && MessageOf(q) == [TextOf(q)];
      assert p == "\r" ==> [] + MessageOf(q) == MessageOf(q);
    }
  }

  lemma {:induction false} FirstLineAfter(p: string, b: string)
    requires b != [] && forall i :: 0 <= i < |p| ==> p[i] != '\n'
    ensures FirstLine(p + b) == |p| + FirstLine(b)
  {
    if p == [] {
      assert p + b == b;
    } else {
      assert (p + b)[1..] == p[1..] + b;
      FirstLineAfter(p[1..], b);
    }
  }

  /** The lines of a and of what follows, when a ends inside a line. */
  lemma LinesCut(a: string, b: string)
    requires !Whole(a) && b != []
    ensures var p, n := Tail(a), FirstLine(b);
            && Lines(a) == Lines(a[..|a| - |p|]) + [p]
            && Lines(b) == [b[..n]] + Lines(b[n..])
            && Lines(a + b) == Lines(a[..|a| - |p|]) + [p + b[..n]] + Lines(b[n..])
            && Pieces(p, b[..n])
  {
    var p := Tail(a);
    TailSplits(a);
    LinesCutAt(a, a[..|a| - |p|], p, b);
    CutPieces(p, b);
  }

  lemma TailSplits(a: string)
    ensures a == a[..|a| - |Tail(a)|] + Tail(a)
  {
    SplitAt(a, |a| - |Tail(a)|);
  }

  lemma SplitAt(a: string, n: nat)
    requires n <= |a|
    ensures a == a[..n] + a[n..]
  {
  }

  lemma CutPieces(p: string, b: string)
    requires p != [] && b != [] && forall i :: 0 <= i < |p| ==> p[i] != '\n'
    ensures Pieces(p, b[..FirstLine(b)])
  {
    FirstLineEnds(b);
  }

  lemma LinesCutAt(a: string, body: string, p: string, b: string)
    requires a == body + p && Whole(body) && p != [] && b != [] && forall i :: 0 <= i < |p| ==> p[i] != '\n'
    ensures var n := FirstLine(b);
            && Lines(a) == Lines(body) + [p]
            && Lines(a + b) == Lines(body) + [p + b[..n]] + Lines(b[n..])
  {
    PieceLines(p, b);
    JoinLines(body, p, a);
    CutWhole(a, body, p, b);
    JoinLines(body, p + b, a + b);
    ConcatAssoc(Lines(body), [p + b[..FirstLine(b)]], Lines(b[FirstLine(b)..]));
  }

  lemma CutWhole(a: string, body: string, p: string, b: string)
    requires a == body + p
    ensures a + b == body + (p + b)
  {
  }

  lemma JoinLines(a: string, b: string, whole: string)
    requires Whole(a) && whole == a + b
    ensures Lines(whole) == Lines(a) + Lines(b)
  {
    LinesJoin(a, b);
  }

  lemma ConcatAssoc<T>(a: seq<T>, b: seq<T>, d: seq<T>)
    ensures a + (b + d) == a + b + d
  {
  }

  lemma PieceLines(p: string, b: string)
    requires p != [] && b != [] && forall i :: 0 <= i < |p| ==> p[i] != '\n'
    ensures Lines(p) == [p] && Lines(p + b) == [p + b[..FirstLine(b)]] + Lines(b[FirstLine(b)..])
  {
    var n := FirstLine(b);
    NoNewlineInside(p);
    OneLine(p);
    FirstLineAfter(p, b);
    assert (p + b)[..|p| + n] == p + b[..n] && (p + b)[|p| + n..] == b[n..];
  }

  lemma Cancel(x: seq<string>, u: seq<string>, v: seq<string>, y: seq<string>)
    ensures x + u + y == x + v + y <==> u == v
  {
    if x + u + y == x + v + y {
      assert |u| == |v|;
      assert (x + u + y)[|x|..|x| + |u|] == u && (x + v + y)[|x|..|x| + |v|] == v;
    }
  }

  /** A file read to its end, then again after an append: the messages are those of one read if and
      only if the first read found a newline at the end (or nothing), nothing was appended, or the
      cut is harmless. */
  lemma SplitReadIff(a: string, b: string)
    ensures Messages(Lines(a)) + Messages(Lines(b)) == Messages(Lines(a + b))
            <==> Whole(a) || b == [] || HarmlessCut(Tail(a), b[..FirstLine(b)])
  {
    if Whole(a) {
      LinesJoin(a, b);
      MessagesConcat(Lines(a), Lines(b));
    } else if b == [] {
      assert a + b == a && Messages(Lines(a)) + [] == Messages(Lines(a));
    } else {
      var p, n := Tail(a), FirstLine(b);
      LinesCut(a, b);
      CutMessages(Lines(a[..|a| - |p|]), p, b[..n], Lines(b[n..]));
      CutHarmlessIff(p, b[..n]);
    }
  }

  lemma CutMessages(before: seq<string>, p: string, q: string, after: seq<string>)
    ensures Messages(before + [p]) + Messages([q] + after) == Messages(before + [p + q] + after)
            <==> MessageOf(p) + MessageOf(q) == MessageOf(p + q)
  {
    var x, y := Messages(before), Messages(after);
    var u, v, w := MessageOf(p), MessageOf(q), MessageOf(p + q);
    MessagesConcat(before, [p]);
    MessagesConcat([q], after);
    MessagesConcat(before + [p + q], after);
    MessagesConcat(before, [p + q]);
    OneMessage(p);
    OneMessage(q);
    OneMessage(p + q);
    Regroup(x, u, v, y);
    Cancel(x, u + v, w, y);
  }

  lemma Regroup<T>(x: seq<T>, u: seq<T>, v: seq<T>, y: seq<T>)
    ensures (x + u) + (v + y) == x + (u + v) + y
  {
  }

  /** A tailer that has read the file and reads on after an append. */
  function ReadOn(a: string, b: string): State {
    ReadToEnd(Apply(ReadToEnd(Apply(Start(a, 0), Open(true))), Append(b)))
  }

  /** The same for a running tailer. */
  lemma ReadOnIff(a: string, b: string)
    ensures ReadOn(a, b).consumed == Lines(a) + Lines(b)
    ensures ReadOn(a, b).emitted == Messages(Lines(a + b))
            <==> Whole(a) || b == [] || HarmlessCut(Tail(a), b[..FirstLine(b)])
  {
    ReadOnReads(a, b);
    SplitReadIff(a, b);
  }

  lemma ReadOnReads(a: string, b: string)
    ensures ReadOn(a, b).consumed == Lines(a) + Lines(b)
    ensures ReadOn(a, b).emitted == Messages(Lines(a)) + Messages(Lines(b))
  {
    var s1 := Apply(Start(a, 0), Open(true));
    var s2 := Apply(ReadToEnd(s1), Append(b));
    RestFromStart(a, b);
    ReadToEndReads(s1);
    ReadToEndReads(s2);
    assert [] + Lines(a) == Lines(a) && [] + Messages(Lines(a)) == Messages(Lines(a));
  }

  lemma RestFromStart(a: string, b: string)
    ensures Rest(a, 0) == a && Rest(a + b, |a|) == b
  {
  }

  /** What is appended to an unterminated line can become a message of its own. */
  lemma PartialLineIsSplit()
    ensures ReadOn("ab", "cd\n").emitted != Messages(Lines("ab" + "cd\n"))
  {
    CdLine();
    AbTail();
    ReadOnIff("ab", "cd\n");
  }

  lemma CdLine()
    ensures "cd\n"[..FirstLine("cd\n")] == "cd\n" && TextOf("cd\n") == "cd"
  {
    NoNewlineInside("cd\n");
    assert "cd\n"[..3] == "cd\n" && "cd\n"[..2] == "cd";
  }

  lemma AbTail()
    ensures Tail("ab") == "ab" && !Whole("ab")
  {
    assert "ab"[..1] == "a" && "a"[..0] == "";
    assert Tail("a") == Tail("") + "a" == "a";
  }

  // ---------------------------------------------------------------- the code

  class LogFile {
    var content: string

    constructor (content: string)
      ensures this.content == content
    {
      this.content := content;
    }
  }

  class Tailer {
    const file: LogFile
    const startOffset: nat
    var lastOffset: nat
    var running: bool              // the file is open
    var pos: nat                   // the reader's position in it
    var emitted: seq<string>       // what was sent on the output channel
    ghost var origin: nat
    ghost var mark: nat
    ghost var consumed: seq<string>
    ghost var stale: bool

    ghost function View(): State
      reads this, file
    {
      State(file.content, lastOffset, if running then Some(pos) else None, origin, mark, consumed, emitted, stale)
    }

    /** NewFileTailer followed by WithStartOffset: a tailer that goes on where another stopped, or
        the first one. */
    constructor (file: LogFile, startOffset: nat, sent: seq<string>, ghost before: State)
      requires before.content == file.content && before.reader.None?
      requires before.lastOffset == startOffset && before.emitted == sent
      ensures this.file == file && this.startOffset == startOffset
      ensures View() == before
    {
      this.file, this.startOffset := file, startOffset;
      lastOffset, running, pos, emitted := startOffset, false, 0, sent;
      origin, mark, consumed, stale := before.origin, before.mark, before.consumed, before.stale;
    }

    /** The beginning of run: a positive start offset is sought; when that fails, reading and
        counting start at zero. */
    method Start(seekOk: bool)
      requires !running && lastOffset == startOffset
      modifies this
      ensures View() == Apply(old(View()), Step.Open(seekOk))
    {
      running, pos := true, 0;
      if startOffset > 0 {
        if seekOk {
          pos := startOffset;
        } else {
          lastOffset := 0;
          origin, mark, stale := 0, |consumed|, false;
        }
      }
    }

    /** The reader's ReadString: the next line, its newline included; `eof` when the file ends first. */
    method ReadString() returns (raw: string, eof: bool)
      modifies this`pos
      ensures pos == old(pos) + |raw|
      ensures var rest := Rest(file.content, old(pos));
              && raw == (if rest == [] then [] else rest[..FirstLine(rest)])
              && Rest(file.content, pos) == rest[|raw|..]
      ensures eof <==> raw == [] || raw[|raw| - 1] != '\n'
    {
      var rest := Rest(file.content, pos);
      if rest == [] {
        return [], true;
      }
      raw := rest[..FirstLine(rest)];
      RestAdvance(file.content, pos, |raw|);
      pos := pos + |raw|;
      eof := raw[|raw| - 1] != '\n';
    }

    /** One turn of that loop: the next line, if any, is sent unless the tailer is cancelled while the
        line waits; then its bytes count into the offset. */
    method ReadOne(sendCancelled: bool, sent: seq<string>, ghost all: string, ghost done: nat, ghost read: nat)
      returns (sent': seq<string>, cancelled: bool, eof: bool, ghost done': nat, ghost read': nat, ghost left': string)
      requires ReadSoFar(all, done, sent, read, Rest(file.content, pos)) && Readable(all, done, true)
      modifies this`pos, this`lastOffset
      ensures ReadSoFar(all, done', sent', read', left')
      ensures Readable(all, done', cancelled || !eof)
      ensures read' >= read && lastOffset == old(lastOffset) + (read' - read)
      ensures !cancelled ==> pos == old(pos) + (read' - read) && left' == Rest(file.content, pos)
      ensures !cancelled && !eof ==> read' > read && pos <= |file.content|
    {
      ghost var rest := Rest(file.content, pos);
      sent', cancelled, done', read', left' := sent, false, done, read, rest;
      var raw;
      raw, eof := ReadString();
      if |raw| > 0 {
        var line := TextOf(raw);
        if line != "" {
          if sendCancelled {
            cancelled := true;
            return;
          }
          sent' := sent + [line];
        }
        lastOffset := lastOffset + |raw|;
        left' := Rest(file.content, pos);
        ReadNext(all, done, sent, read, rest, raw, sent', left');
        done', read' := done + 1, read + |raw|;
      }
      if eof {
        ReadAll(all, done', sent', read');
      }
    }

    /** The loop of readLines: reads to the end of the file unless cancelled, either before a read or
        while a line waits to be sent. */
    method ReadLoop(cancelBefore: nat -> bool, cancelSend: nat -> bool)
      returns (sent: seq<string>, cancelled: bool, ghost done: nat, ghost read: nat, ghost left: string)
      modifies this`pos, this`lastOffset
      ensures ReadSoFar(Rest(file.content, old(pos)), done, sent, read, left)
      ensures Readable(Rest(file.content, old(pos)), done, cancelled)
      ensures lastOffset == old(lastOffset) + read && (!cancelled ==> pos == old(pos) + read)
    {
      ghost var all := Rest(file.content, pos);
      var turn, eof := 0, false;
      sent, cancelled, done, read, left := [], false, 0, 0, all;
      ReadNothing(all);
      while !eof
        invariant ReadSoFar(all, done, sent, read, left) && Readable(all, done, !eof)
        invariant left == Rest(file.content, pos) && !cancelled
        invariant lastOffset == old(lastOffset) + read && pos == old(pos) + read
        decreases !eof, |file.content| - pos
      {
        if cancelBefore(turn) {
          return sent, true, done, read, left;
        }
        sent, cancelled, eof, done, read, left := ReadOne(cancelSend(turn), sent, all, done, read);
        if cancelled {
          return;
        }
        turn := turn + 1;
      }
    }

    /** readLines, with what its callers do when it was cancelled: the file is closed. */
    method ReadLines(cancelBefore: nat -> bool, cancelSend: nat -> bool)
      returns (cancelled: bool, ghost done: nat)
      requires running
      modifies this
      ensures Enabled(old(View()), Read(done, cancelled))
      ensures View() == Apply(old(View()), Read(done, cancelled))
    {
      ghost var s, read, left := View(), 0, "";
      var sent;
      sent, cancelled, done, read, left := ReadLoop(cancelBefore, cancelSend);
      emitted := emitted + sent;
      consumed := consumed + Head(Rest(file.content, s.reader.value), done);
      if cancelled {
        running := false;
      }
      ReadIs(s, done, cancelled, sent, read, left, View());
    }

    /** handleTruncation: a file shorter than the read position is read again from its start. */
    method HandleTruncation()
      requires running
      modifies this
      ensures View() == Apply(old(View()), CheckTruncation)
    {
      if |file.content| >= pos {
        return;
      }
      pos := 0;
      lastOffset := 0;
      origin, mark, stale := 0, |consumed|, false;
    }

    /** A write to the followed file: the truncation check, then what there is to read. */
    method HandleWrite(cancelBefore: nat -> bool, cancelSend: nat -> bool)
      returns (cancelled: bool, ghost done: nat)
      requires running
      modifies this
      ensures Enabled(Apply(old(View()), CheckTruncation), Read(done, cancelled))
      ensures View() == Apply(Apply(old(View()), CheckTruncation), Read(done, cancelled))
    {
      HandleTruncation();
      cancelled, done := ReadLines(cancelBefore, cancelSend);
    }
  }

  /** Of the content `all`, `done` lines have been consumed, which take `read` bytes and became
      `emitted`; `rest` is what follows them. */
  ghost predicate ReadSoFar(all: string, done: nat, emitted: seq<string>, read: nat, rest: string) {
    && done <= |Lines(all)| && Lines(rest) == Lines(all)[done..]
    && emitted == Messages(Head(all, done))
    && read == Taken(all, done)
  }

  lemma ReadNothing(all: string)
    ensures ReadSoFar(all, 0, [], 0, all)
  {
    assert Head(all, 0) == [] && Lines(all)[0..] == Lines(all);
  }

  /** What the loop of readLines does is the step Read. */
  lemma ReadIs(s: State, done: nat, cancelled: bool, sent: seq<string>, read: nat, left: string, s': State)
    requires s.reader.Some? && Readable(Rest(s.content, s.reader.value), done, cancelled)
    requires ReadSoFar(Rest(s.content, s.reader.value), done, sent, read, left)
    requires s'.lastOffset == s.lastOffset + read && s'.emitted == s.emitted + sent
    requires s'.reader == if cancelled then None else Some(s.reader.value + read)
    requires s'.consumed == s.consumed + Head(Rest(s.content, s.reader.value), done)
    requires s'.content == s.content && s'.origin == s.origin && s'.mark == s.mark && s'.stale == s.stale
    ensures Enabled(s, Read(done, cancelled)) && s' == Apply(s, Read(done, cancelled))
  {
  }

  lemma ReadAll(all: string, done: nat, emitted: seq<string>, read: nat)
    requires ReadSoFar(all, done, emitted, read, [])
    ensures done == |Lines(all)| && Readable(all, done, false)
  {
  }

  /** Consuming the next line; one without a newline is the last. */
  lemma ReadNext(all: string, done: nat, emitted: seq<string>, read: nat, rest: string, raw: string,
                 emitted': seq<string>, rest': string)
    requires ReadSoFar(all, done, emitted, read, rest)
    requires rest != [] && raw == rest[..FirstLine(rest)] && rest' == rest[|raw|..]
    requires emitted' == if TextOf(raw) == "" then emitted else emitted + [TextOf(raw)]
    ensures done < |Lines(all)|
    ensures ReadSoFar(all, done + 1, emitted', read + |raw|, rest')
    ensures raw[|raw| - 1] != '\n' ==> rest' == []
    ensures raw[|raw| - 1] == '\n' ==> Readable(all, done + 1, true)
  {
    NextLine(all, done, rest);
    assert emitted + [] == emitted;
    assert Lines(rest)[0] == raw;
    if done + 1 == |Lines(all)| { WholeIffLastEnds(all); }
    if raw[|raw| - 1] != '\n' { UnterminatedIsLast(rest); }
  }

  lemma RestAdvance(content: string, pos: nat, n: nat)
    requires n <= |Rest(content, pos)| && Rest(content, pos) != []
    ensures Rest(content, pos + n) == Rest(content, pos)[n..]
  {
  }

  /** Consuming the next line of the remaining content. */
  lemma NextLine(all: string, done: nat, rest: string)
    requires done <= |Lines(all)| && rest != [] && Lines(rest) == Lines(all)[done..]
    ensures done < |Lines(all)|
    ensures var raw := rest[..FirstLine(rest)];
            && Messages(Head(all, done + 1)) == Messages(Head(all, done)) + MessageOf(raw)
            && Taken(all, done + 1) == Taken(all, done) + |raw|
    ensures Lines(rest[FirstLine(rest)..]) == Lines(all)[done + 1..]
  {
    var raw := rest[..FirstLine(rest)];
    assert Lines(rest)[0] == raw && Lines(all)[done] == raw;
    assert Head(all, done + 1) == Head(all, done) + [raw];
    MessagesConcat(Head(all, done), [raw]);
    OneMessage(raw);
    FlattenSnoc(Head(all, done), raw);
    assert Lines(rest)[1..] == Lines(all)[done + 1..];
  }

  lemma {:induction false} UnterminatedIsLast(content: string)
    requires content != [] && content[FirstLine(content) - 1] != '\n'
    ensures FirstLine(content) == |content|
  {
    if !(content[0] == '\n' || |content| == 1) { UnterminatedIsLast(content[1..]); }
  }

  /** Content ends with a newline exactly when its last line does. */
  lemma WholeIffLastEnds(all: string)
    requires Lines(all) != []
    ensures Lines(all)[|Lines(all)| - 1] != [] ==> (Whole(all) <==> Terminated(Lines(all)[|Lines(all)| - 1]))
  {
    LinesRejoin(all);
    LastOfFlat(Lines(all), all);
  }

  lemma LastOfFlat(lines: seq<string>, all: string)
    requires lines != [] && Flatten(lines) == all
    ensures var last := lines[|lines| - 1]; last != [] ==> all != [] && all[|all| - 1] == last[|last| - 1]
  {
    var front, last := lines[..|lines| - 1], lines[|lines| - 1];
    assert lines == front + [last];
    FlattenSnoc(front, last);
  }
}
